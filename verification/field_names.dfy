/**
 The flat field names the form renderers give each input, and the decoding that
 the form parser applies to them: `option.param`, `option.param[n]`,
 `option.param.keys[n]` and `option.param.values[n]`.
 */
module FieldNames {
  import opened Wrappers
  import opened Strings
  import opened Catalogue

  /** What a rendered input stands for. */
  datatype FieldKey =
    | Scalar(option: string, param: string)
    | Item(option: string, param: string, index: nat)
    | PairKey(option: string, param: string, index: nat)
    | PairValue(option: string, param: string, index: nat)

  /** The decoded parts of a field name: option, field, the segment after the field, and the bracket index. */
  datatype FieldRef = FieldRef(option: string, field: string, role: Option<string>, index: Option<nat>)

  /** The `name` attribute a renderer writes for a field. */
  function Encode(k: FieldKey): string
  {
    match k
    case Scalar(o, p) => o + "." + p
    case Item(o, p, n) => o + "." + p + "[" + NatToString(n) + "]"
    case PairKey(o, p, n) => o + "." + p + ".keys[" + NatToString(n) + "]"
    case PairValue(o, p, n) => o + "." + p + ".values[" + NatToString(n) + "]"
  }

  /** What decoding an encoded name must give back. */
  function RefOf(k: FieldKey): FieldRef
  {
    match k
    case Scalar(o, p) => FieldRef(o, p, None, None)
    case Item(o, p, n) => FieldRef(o, p, None, Some(n))
    case PairKey(o, p, n) => FieldRef(o, p, Some("keys"), Some(n))
    case PairValue(o, p, n) => FieldRef(o, p, Some("values"), Some(n))
  }

  /**
   The split-and-bracket decoding at the top of the parser loop. `None` marks a
   name outside the well-formed shapes the parser assumes: other than two or three
   `.`-separated segments, or a trailing `]` without a `[` and a decimal index.
   */
  function Decode(name: string): Option<FieldRef>
  {
    var segs := Split(name, '.');
    if |segs| < 2 || |segs| > 3 then None
    else if !EndsWith(name, ']') then Some(FieldRef(segs[0], segs[1], RoleOf(segs), None))
    else DecodeBracket(name, segs)
  }

  /** The third segment, when there is one. */
  function RoleOf(values: seq<string>): Option<string>
    requires 2 <= |values|
  {
    if |values| == 3 then Some(values[2]) else None
  }

  /** A name ending in `]`: cut the last segment at its `[`, read the index between the first `[` and the first `]`. */
  function DecodeBracket(name: string, segs: seq<string>): Option<FieldRef>
    requires 2 <= |segs| <= 3
  {
    var last := segs[|segs| - 1];
    var cut := IndexOf(last, '[');
    var open := IndexOf(name, '[');
    var close := IndexOf(name, ']');
    if cut < 0 || open < 0 || close <= open || !IsDigits(name[open + 1..close]) then None
    else
      var values := segs[..|segs| - 1] + [last[..cut]];
      Some(FieldRef(values[0], values[1], RoleOf(values), Some(ParseNat(name[open + 1..close]))))
  }

  lemma DigitsArePlain(d: string)
    requires IsDigits(d)
    ensures PlainName(d)
  {
    assert forall c :: c in d ==> IsDigit(c);
  }

  /** The text a field name carries between the parameter and the bracket. */
  function RoleText(role: Option<string>): string
  {
    if role.Some? then "." + role.value else ""
  }

  /** `head[d]`. */
  function BracketedText(head: string, d: string): string
  {
    head + "[" + d + "]"
  }

  /** A character that is no bracket and occurs in neither part does not occur in `base[d]`. */
  lemma NotInBracketed(base: string, d: string, c: char)
    requires c !in base && c !in d && c != '[' && c != ']'
    ensures c !in BracketedText(base, d)
  {
    assert BracketedText(base, d) == base + ['['] + d + [']'];
  }

  /** The bracket attaches to the last part of the head. */
  lemma BracketedAppend(x: string, y: string, d: string)
    ensures BracketedText(x + y, d) == x + BracketedText(y, d)
  {
  }

  /** `o.p[d]` or `o.p.r[d]` splits into its two or three segments. */
  lemma SplitBracketed(o: string, p: string, role: Option<string>, d: string)
    requires PlainName(o) && PlainName(p) && PlainName(d)
    requires role.Some? ==> PlainName(role.value)
    ensures var base := if role.Some? then role.value else p;
      Split(BracketedText(o + "." + p + RoleText(role), d), '.') ==
        (if role.Some? then [o, p] else [o]) + [BracketedText(base, d)]
  {
    if role.Some? {
      var r := role.value;
      NotInBracketed(r, d, '.');
      assert o + "." + p + RoleText(role) == (o + "." + p + ".") + r;
      BracketedAppend(o + "." + p + ".", r, d);
      assert (o + "." + p + ".") + BracketedText(r, d) == o + ['.'] + p + ['.'] + BracketedText(r, d);
      SplitThree(o, p, BracketedText(r, d), '.');
    } else {
      NotInBracketed(p, d, '.');
      assert o + "." + p + RoleText(role) == (o + ".") + p;
      BracketedAppend(o + ".", p, d);
      assert (o + ".") + BracketedText(p, d) == o + ['.'] + BracketedText(p, d);
      SplitTwo(o, BracketedText(p, d), '.');
    }
  }

  /** The first `[` and the first `]` of `head[d]` enclose `d`. */
  lemma BracketPositions(head: string, d: string)
    requires '[' !in head && ']' !in head && '[' !in d && ']' !in d
    ensures IndexOf(BracketedText(head, d), '[') == |head|
    ensures IndexOf(BracketedText(head, d), ']') == |head| + 1 + |d|
    ensures BracketedText(head, d)[|head| + 1..|head| + 1 + |d|] == d
  {
    var name := BracketedText(head, d);
    assert name == head + ("[" + d + "]");
    IndexOfConcat(head, "[" + d + "]", '[');
    var pre := head + "[" + d;
    assert ']' !in pre;
    assert name == pre + "]";
    IndexOfConcat(pre, "]", ']');
    assert IndexOf("]", ']') == 0;
  }

  /** The `[` of `base[d]` comes right after `base`. */
  lemma CutAtBracket(base: string, d: string)
    requires '[' !in base
    ensures IndexOf(BracketedText(base, d), '[') == |base|
    ensures BracketedText(base, d)[..|base|] == base
  {
    assert BracketedText(base, d) == base + ("[" + d + "]");
    IndexOfConcat(base, "[" + d + "]", '[');
  }

  /** `DecodeBracket` once the segments and the bracket positions are known. */
  lemma DecodeBracketAt(name: string, segs: seq<string>, base: string, d: string, open: nat)
    requires 2 <= |segs| <= 3 && segs[|segs| - 1] == BracketedText(base, d) && '[' !in base
    requires IsDigits(d) && open + 1 + |d| <= |name|
    requires IndexOf(name, '[') == open && IndexOf(name, ']') == open + 1 + |d|
    requires name[open + 1..open + 1 + |d|] == d
    ensures DecodeBracket(name, segs).Some?
    ensures DecodeBracket(name, segs).value.option == segs[0]
    ensures DecodeBracket(name, segs).value.field == if |segs| == 2 then base else segs[1]
    ensures DecodeBracket(name, segs).value.role == if |segs| == 3 then Some(base) else None
    ensures DecodeBracket(name, segs).value.index == Some(ParseNat(d))
  {
    CutAtBracket(base, d);
  }

  /** `Decode` of a name ending in `]` whose segments and bracket positions are known. */
  lemma DecodeAt(name: string, segs: seq<string>, base: string, d: string, open: nat)
    requires Split(name, '.') == segs && EndsWith(name, ']')
    requires 2 <= |segs| <= 3 && segs[|segs| - 1] == BracketedText(base, d) && '[' !in base
    requires IsDigits(d) && open + 1 + |d| <= |name|
    requires IndexOf(name, '[') == open && IndexOf(name, ']') == open + 1 + |d|
    requires name[open + 1..open + 1 + |d|] == d
    ensures Decode(name) == Some(FieldRef(segs[0], if |segs| == 2 then base else segs[1],
      if |segs| == 3 then Some(base) else None, Some(ParseNat(d))))
  {
    DecodeBracketAt(name, segs, base, d, open);
  }

  /** The head `o.p` or `o.p.r` of a bracketed name holds no bracket. */
  lemma HeadPlain(o: string, p: string, role: Option<string>)
    requires PlainName(o) && PlainName(p)
    requires role.Some? ==> PlainName(role.value)
    ensures '[' !in o + "." + p + RoleText(role) && ']' !in o + "." + p + RoleText(role)
  {
  }

  /** `Decode` of a bracketed name from its split, its bracket positions and its last segment. */
  lemma DecodeSplitAt(name: string, head: string, segs: seq<string>, base: string, d: string)
    requires name == BracketedText(head, d) && Split(name, '.') == segs
    requires 2 <= |segs| <= 3 && segs[|segs| - 1] == BracketedText(base, d)
    requires '[' !in base && IsDigits(d)
    requires '[' !in head && ']' !in head
    ensures Decode(name) == Some(FieldRef(segs[0], if |segs| == 2 then base else segs[1],
      if |segs| == 3 then Some(base) else None, Some(ParseNat(d))))
  {
    DigitsArePlain(d);
    BracketPositions(head, d);
    DecodeAt(name, segs, base, d, |head|);
  }

  /** The bracketed shapes `o.p[d]` and `o.p.r[d]` for a decimal index `d`. */
  lemma DecodeBracketedDigits(o: string, p: string, role: Option<string>, d: string)
    requires PlainName(o) && PlainName(p) && IsDigits(d)
    requires role.Some? ==> PlainName(role.value)
    ensures Decode(BracketedText(o + "." + p + RoleText(role), d)) == Some(FieldRef(o, p, role, Some(ParseNat(d))))
  {
    DigitsArePlain(d);
    var head := o + "." + p + RoleText(role);
    SplitBracketed(o, p, role, d);
    HeadPlain(o, p, role);
    if role.Some? {
      DecodeSplitAt(BracketedText(head, d), head, [o, p, BracketedText(role.value, d)], role.value, d);
    } else {
      DecodeSplitAt(BracketedText(head, d), head, [o, BracketedText(p, d)], p, d);
    }
  }

  /** The rendered name of a bracketed field, by its role. */
  function BracketedName(o: string, p: string, role: Option<string>, n: nat): string
  {
    BracketedText(o + "." + p + RoleText(role), NatToString(n))
  }

  /** Each bracketed shape of `Encode` is a `BracketedName`. */
  lemma EncodeBracketed(k: FieldKey)
    requires !k.Scalar?
    ensures Encode(k) == BracketedName(k.option, k.param,
      if k.Item? then None else if k.PairKey? then Some("keys") else Some("values"), k.index)
  {
  }

  /** `o.p[n]`, `o.p.keys[n]` and `o.p.values[n]` decode to their parts. */
  lemma DecodeBracketedName(o: string, p: string, role: Option<string>, n: nat)
    requires PlainName(o) && PlainName(p)
    requires role.Some? ==> PlainName(role.value)
    ensures Decode(BracketedName(o, p, role, n)) == Some(FieldRef(o, p, role, Some(n)))
  {
    ParseNatToString(n);
    DecodeBracketedDigits(o, p, role, NatToString(n));
  }

  /** Decoding a rendered name gives back its option, field, pair role and index. */
  lemma DecodeEncode(k: FieldKey)
    requires PlainName(k.option) && PlainName(k.param)
    ensures Decode(Encode(k)) == Some(RefOf(k))
  {
    if k.Scalar? {
      assert Encode(k) == k.option + ['.'] + k.param;
      SplitTwo(k.option, k.param, '.');
    } else {
      var role := if k.Item? then None else if k.PairKey? then Some("keys") else Some("values");
      EncodeBracketed(k);
      DecodeBracketedName(k.option, k.param, role, k.index);
    }
  }

  /** The first `.`-separated segment of a rendered name is its option. */
  lemma EncodeFirstSegment(k: FieldKey)
    requires PlainName(k.option) && PlainName(k.param)
    ensures Split(Encode(k), '.')[0] == k.option
  {
    if k.Scalar? {
      assert Encode(k) == k.option + ['.'] + k.param;
      SplitTwo(k.option, k.param, '.');
    } else {
      var role := if k.Item? then None else if k.PairKey? then Some("keys") else Some("values");
      EncodeBracketed(k);
      SplitBracketed(k.option, k.param, role, NatToString(k.index));
    }
  }
}
