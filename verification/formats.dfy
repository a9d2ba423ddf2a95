/**
 The option formatters: `sepSpace`, `mapping` and `pair`, the inline `hostname:ip`
 and auto-update label formatters, and the identity default, applied to one parsed
 record with JavaScript destructuring semantics.
 */
module Formats {
  import opened Wrappers
  import opened Strings
  import opened Seqs
  import opened Assoc
  import opened Records
  import opened Catalogue

  // ---------------------------------------------------------------------------
  // sepSpace

  /** `values.join(" ")`. */
  function SepSpaceText(values: seq<string>): (r: string)
    ensures |values| == 1 ==> r == values[0]
  {
    Join(values, " ")
  }

  /** Splitting the output at spaces gives back the values, in order, when none holds a space. */
  lemma SepSpaceSplits(values: seq<string>)
    requires |values| >= 1
    requires forall i :: 0 <= i < |values| ==> ' ' !in values[i]
    ensures Split(SepSpaceText(values), ' ') == values
  {
    SplitJoin(values, ' ');
  }

  // ---------------------------------------------------------------------------
  // mapping

  function ContainerPart(container: Option<string>): string
  {
    if container.Some? then ":" + container.value else ""
  }

  function PermissionsPart(perms: seq<string>): string
  {
    if |perms| > 0 then ":" + Join(perms, "") else ""
  }

  /** `Format.mapping` on host, optional container, permissions and the `ifExists` flag. */
  function MappingText(host: string, container: Option<string>, perms: seq<string>, ifExists: bool): string
  {
    (if ifExists then "-" else "") + MappingTail(host, container, perms)
  }

  /** Reading a mapping back: the `-` flag, then the `:`-separated segments. */
  function UnMapping(s: string): (bool, seq<string>)
  {
    if |s| > 0 && s[0] == '-' then (true, Split(s[1..], ':')) else (false, Split(s, ':'))
  }

  /** The segments a mapping is made of: host, then the container if any, then the deduplicated permissions if any. */
  function MappingSegments(host: string, container: Option<string>, perms: seq<string>): seq<string>
  {
    [host] + (if container.Some? then [container.value] else [])
      + (if |Distinct(perms)| > 0 then [Join(Distinct(perms), "")] else [])
  }

  /** A joined text holds no character that none of its parts holds. */
  lemma {:induction false} JoinAvoids(parts: seq<string>, sep: string, c: char)
    requires c !in sep
    requires forall i :: 0 <= i < |parts| ==> c !in parts[i]
    ensures c !in Join(parts, sep)
    decreases |parts|
  {
    if |parts| > 1 {
      JoinAvoids(parts[1..], sep, c);
    }
  }

  lemma ColonFreePermissions(perms: seq<string>)
    requires forall i :: 0 <= i < |perms| ==> ':' !in perms[i]
    ensures ':' !in Join(Distinct(perms), "")
  {
    DistinctElements(perms);
    var d := Distinct(perms);
    forall i | 0 <= i < |d|
      ensures ':' !in d[i]
    {
      assert d[i] in perms;
    }
    JoinAvoids(d, "", ':');
  }

  /** The text after the `-` flag: host, container and permissions. */
  function MappingTail(host: string, container: Option<string>, perms: seq<string>): string
  {
    host + ContainerPart(container) + PermissionsPart(Distinct(perms))
  }

  /** The tail written out with its `:` separators. */
  lemma MappingTailShape(host: string, container: Option<string>, perms: seq<string>)
    ensures var d := Distinct(perms);
      MappingTail(host, container, perms) ==
        if container.Some? && |d| > 0 then host + [':'] + container.value + [':'] + Join(d, "")
        else if container.Some? then host + [':'] + container.value
        else if |d| > 0 then host + [':'] + Join(d, "")
        else host
  {
  }

  /** Each piece of the tail begins with `:`, so splitting gives its segments. */
  lemma SplitTail(host: string, container: Option<string>, perms: seq<string>)
    requires ':' !in host
    requires container.Some? ==> ':' !in container.value
    requires forall i :: 0 <= i < |perms| ==> ':' !in perms[i]
    ensures Split(MappingTail(host, container, perms), ':') == MappingSegments(host, container, perms)
  {
    ColonFreePermissions(perms);
    MappingTailShape(host, container, perms);
    var d := Distinct(perms);
    var pj := Join(d, "");
    if container.Some? && |d| > 0 {
      SplitThree(host, container.value, pj, ':');
    } else if container.Some? {
      SplitTwo(host, container.value, ':');
    } else if |d| > 0 {
      SplitTwo(host, pj, ':');
    } else {
      SplitNoSep(host, ':');
    }
  }

  /** The tail begins with the host, or with `:` when the host is empty. */
  lemma MappingTailStart(host: string, container: Option<string>, perms: seq<string>)
    requires |host| == 0 || host[0] != '-'
    ensures |MappingTail(host, container, perms)| == 0 || MappingTail(host, container, perms)[0] != '-'
  {
    MappingTailShape(host, container, perms);
  }

  /**
   A mapping starts with `-` exactly when `ifExists` holds, and then lists host,
   container (when given) and the deduplicated permissions (when there are any),
   in that order, separated by `:`; provided no part holds a `:` and the host does
   not itself start with `-`.
   */
  lemma MappingRoundTrip(host: string, container: Option<string>, perms: seq<string>, ifExists: bool)
    requires ':' !in host && (|host| == 0 || host[0] != '-')
    requires container.Some? ==> ':' !in container.value
    requires forall i :: 0 <= i < |perms| ==> ':' !in perms[i]
    ensures UnMapping(MappingText(host, container, perms, ifExists)) == (ifExists, MappingSegments(host, container, perms))
  {
    var tail := MappingTail(host, container, perms);
    SplitTail(host, container, perms);
    if ifExists {
      assert MappingText(host, container, perms, ifExists) == "-" + tail;
      Flagged(tail);
    } else {
      assert MappingText(host, container, perms, ifExists) == tail;
      MappingTailStart(host, container, perms);
      Unflagged(tail);
    }
  }

  lemma Flagged(tail: string)
    ensures UnMapping("-" + tail) == (true, Split(tail, ':'))
  {
    assert ("-" + tail)[1..] == tail;
  }

  lemma Unflagged(tail: string)
    requires |tail| == 0 || tail[0] != '-'
    ensures UnMapping(tail) == (false, Split(tail, ':'))
  {
  }

  /** Repeated permissions count once: `[r, w, r]` gives `rw`. */
  lemma MappingDeduplicates()
    ensures MappingText("/dev/device", None, ["r", "w", "r"], false) == "/dev/device:rw"
  {
    assert Distinct(["r", "w", "r"]) == ["r", "w"] by {
      var xs := ["r", "w", "r"];
      assert xs[..1] == ["r"] && xs[..2] == ["r", "w"];
      assert Distinct(["r"]) == ["r"];
    }
  }

  // ---------------------------------------------------------------------------
  // pair

  /** `key=value`, wrapped in double quotes when the value holds a space. */
  function PairWord(k: string, v: string): (w: string)
    ensures '"' !in k ==> (|w| > 0 && w[0] == '"' <==> ' ' in v)
  {
    if ' ' in v then "\"" + k + "=" + v + "\"" else k + "=" + v
  }

  function Words(es: Assoc<string>): (ws: seq<string>)
    ensures |ws| == |es|
  {
    if |es| == 0 then [] else [PairWord(es[0].0, es[0].1)] + Words(es[1..])
  }

  /** `Format.pair`: the words of the entries in order, separated by single spaces. */
  function PairText(es: Assoc<string>): string
  {
    Join(Words(es), " ")
  }

  /**
   Reading a command-line style text back into words: a word is either a double-
   quoted run (quotes dropped) followed by a space or the end, or a run up to the
   next space.
   */
  function Tokens(s: string): seq<string>
    decreases |s|
  {
    if |s| == 0 then []
    else if s[0] == '"' then
      var body := s[1..];
      var j := IndexOf(body, '"');
      if j < 0 then [body]
      else
        var rest := body[j + 1..];
        [body[..j]] + (if |rest| == 0 then [] else Tokens(rest[1..]))
    else
      var j := IndexOf(s, ' ');
      if j < 0 then [s] else [s[..j]] + Tokens(s[j + 1..])
  }

  /** A word cut at its first `=`. */
  function CutAtEquals(t: string): (string, string)
  {
    var i := IndexOf(t, '=');
    if i < 0 then (t, "") else (t[..i], t[i + 1..])
  }

  function UnWords(ts: seq<string>): (es: Assoc<string>)
    ensures |es| == |ts|
  {
    if |ts| == 0 then [] else [CutAtEquals(ts[0])] + UnWords(ts[1..])
  }

  /** Reading `Format.pair` output back into entries. */
  function PairsOf(s: string): Assoc<string>
  {
    UnWords(Tokens(s))
  }

  /** Keys free of spaces, quotes and `=`, values free of quotes: the entries the pair text can be read back from. */
  predicate SafeEntries(es: Assoc<string>)
  {
    forall i :: 0 <= i < |es| ==>
      ' ' !in es[i].0 && '"' !in es[i].0 && '=' !in es[i].0 && '"' !in es[i].1
  }

  /** What each word reads as once its quotes are dropped. */
  function Contents(es: Assoc<string>): (cs: seq<string>)
    ensures |cs| == |es|
  {
    if |es| == 0 then [] else [es[0].0 + "=" + es[0].1] + Contents(es[1..])
  }

  lemma QuotedLast(c: string, s: string)
    requires '"' !in c && s == "\"" + c + "\""
    ensures Tokens(s) == [c]
  {
    var body := c + "\"";
    assert s[1..] == body;
    IndexOfConcat(c, "\"", '"');
    assert body[..|c|] == c;
    assert body[|c| + 1..] == [];
  }

  /** `"c" rest` opens with a quote followed by `c`, the closing quote and the space. */
  lemma QuoteOpens(c: string, rest: string, s: string)
    requires s == "\"" + c + "\"" + " " + rest
    ensures s[0] == '"' && s[1..] == c + ("\"" + (" " + rest))
  {
    assert s == "\"" + (c + ("\"" + (" " + rest)));
  }

  /** The first quote after the opening one is the one right after `c`. */
  lemma QuoteCloses(c: string, rest: string, body: string)
    requires '"' !in c && body == c + ("\"" + (" " + rest))
    ensures IndexOf(body, '"') == |c| && body[..|c|] == c && body[|c| + 1..] == " " + rest
  {
    IndexOfConcat(c, "\"" + (" " + rest), '"');
  }

  /** A quoted run closed before a space is one word; reading resumes after the space. */
  lemma QuotedStep(c: string, rest: string, s: string)
    requires |s| > 0 && s[0] == '"' && IndexOf(s[1..], '"') == |c| && |c| < |s[1..]|
    requires s[1..][..|c|] == c && s[1..][|c| + 1..] == " " + rest
    ensures Tokens(s) == [c] + Tokens(rest)
  {
    assert (" " + rest)[1..] == rest;
  }

  lemma QuotedCons(c: string, rest: string, s: string)
    requires '"' !in c && s == "\"" + c + "\"" + " " + rest
    ensures Tokens(s) == [c] + Tokens(rest)
  {
    QuoteOpens(c, rest, s);
    QuoteCloses(c, rest, s[1..]);
    QuotedStep(c, rest, s);
  }

  lemma PlainToken(w: string, rest: string)
    requires ' ' !in w && |w| > 0 && w[0] != '"'
    ensures Tokens(w) == [w]
    ensures Tokens(w + " " + rest) == [w] + Tokens(rest)
  {
    var s := w + " " + rest;
    assert s == w + (" " + rest);
    IndexOfConcat(w, " " + rest, ' ');
    assert s[..|w|] == w;
    assert s[|w| + 1..] == rest;
  }

  /** The first word of the entries reads as its content. */
  lemma WordToken(k: string, v: string, rest: string)
    requires ' ' !in k && '"' !in k && '=' !in k && '"' !in v
    ensures Tokens(PairWord(k, v)) == [k + "=" + v]
    ensures Tokens(PairWord(k, v) + " " + rest) == [k + "=" + v] + Tokens(rest)
  {
    var c := k + "=" + v;
    if ' ' in v {
      assert '"' !in c;
      QuotedLast(c, PairWord(k, v));
      assert PairWord(k, v) + " " + rest == "\"" + c + "\"" + " " + rest;
      QuotedCons(c, rest, PairWord(k, v) + " " + rest);
    } else {
      assert ' ' !in c;
      assert c[0] != '"' by {
        if |k| > 0 { assert c[0] == k[0]; } else { assert c[0] == '='; }
      }
      PlainToken(c, rest);
    }
  }

  lemma {:induction false} TokensOfPairText(es: Assoc<string>)
    requires SafeEntries(es)
    ensures Tokens(PairText(es)) == Contents(es)
    decreases |es|
  {
    if |es| == 1 {
      WordToken(es[0].0, es[0].1, "");
    } else if |es| > 1 {
      var tail := es[1..];
      assert SafeEntries(tail) by {
        assert forall i :: 0 <= i < |tail| ==> tail[i] == es[i + 1];
      }
      TokensOfPairText(tail);
      assert Words(es)[1..] == Words(tail);
      assert PairText(es) == PairWord(es[0].0, es[0].1) + " " + PairText(tail);
      WordToken(es[0].0, es[0].1, PairText(tail));
    }
  }

  lemma CutAtEqualsContent(k: string, v: string)
    requires '=' !in k
    ensures CutAtEquals(k + "=" + v) == (k, v)
  {
    var t := k + "=" + v;
    assert t == k + ("=" + v);
    IndexOfConcat(k, "=" + v, '=');
    assert t[..|k|] == k;
    assert t[|k| + 1..] == v;
  }

  lemma {:induction false} UnWordsContents(es: Assoc<string>)
    requires forall i :: 0 <= i < |es| ==> '=' !in es[i].0
    ensures UnWords(Contents(es)) == es
    decreases |es|
  {
    if |es| > 0 {
      CutAtEqualsContent(es[0].0, es[0].1);
      var tail := es[1..];
      assert forall i :: 0 <= i < |tail| ==> tail[i] == es[i + 1];
      UnWordsContents(tail);
      assert Contents(es)[1..] == Contents(tail);
    }
  }

  /**
   `Format.pair` loses nothing: reading its output back (quoted words whole, then
   each word cut at its first `=`) gives the entries in their order.
   */
  lemma PairTextRoundTrip(es: Assoc<string>)
    requires SafeEntries(es)
    ensures PairsOf(PairText(es)) == es
  {
    TokensOfPairText(es);
    UnWordsContents(es);
  }

  // ---------------------------------------------------------------------------
  // The inline formatters

  /** AddHost's `hostname:ip`. */
  function HostIpText(hostname: string, ip: string): string
  {
    hostname + ":" + ip
  }

  /** With a hostname free of `:`, the first `:` separates hostname from address (which may hold more `:`). */
  lemma HostIpRoundTrip(hostname: string, ip: string)
    requires ':' !in hostname
    ensures IndexOf(HostIpText(hostname, ip), ':') == |hostname|
    ensures HostIpText(hostname, ip)[..|hostname|] == hostname
    ensures HostIpText(hostname, ip)[|hostname| + 1..] == ip
  {
    var s := HostIpText(hostname, ip);
    assert s == hostname + (":" + ip);
    IndexOfConcat(hostname, ":" + ip, ':');
  }

  const AutoUpdatePrefix := "io.containers.autoupdate="

  /** AutoUpdate's command-line label `io.containers.autoupdate=<value>`. */
  function AutoUpdateText(value: string): string
  {
    AutoUpdatePrefix + value
  }

  // ---------------------------------------------------------------------------
  // Formatters on records

  const TypeError := "TypeError"

  /** The characters of a string, as spreading it gives them. */
  function Chars(s: string): (cs: seq<string>)
    ensures |cs| == |s| && forall i :: 0 <= i < |s| ==> cs[i] == [s[i]]
  {
    seq(|s|, i requires 0 <= i < |s| => [s[i]])
  }

  /** `Object.entries(v)`: strings and arrays give index keys; `undefined` throws. */
  function EntriesOf(v: Value): (r: Option<Assoc<string>>)
    ensures r.None? <==> v.Undefined?
    ensures v.Pairs? ==> r == Some(v.entries)
    ensures v.List? ==> r.Some? && |r.value| == |v.items|
    ensures v.Str? ==> r.Some? && |r.value| == |v.text|
  {
    match v
    case Undefined => None
    case Str(s) => Some(seq(|s|, i requires 0 <= i < |s| => (NatToString(i), [s[i]])))
    case List(xs) => Some(seq(|xs|, i requires 0 <= i < |xs| => (NatToString(i), xs[i])))
    case Pairs(ps) => Some(ps)
  }

  /** The `permissions` a mapping spreads into a set: absent means none; an object is not iterable. */
  function PermissionItems(v: Value): (r: Option<seq<string>>)
    ensures r.None? <==> v.Pairs?
    ensures v.List? ==> r == Some(v.items)
    ensures v.Undefined? ==> r == Some([])
  {
    match v
    case Undefined => Some([])
    case Str(s) => Some(Chars(s))
    case List(xs) => Some(xs)
    case Pairs(_) => None
  }

  /** `container = null` unless the record holds one. */
  function OptionalText(v: Value): (r: Option<string>)
    ensures r.None? <==> v.Undefined?
  {
    if v.Undefined? then None else Some(Display(v))
  }

  /**
   A formatter applied to a record; `None` is `({ value }) => value`. A formatter
   result is a string; the identity passes the stored value on as it is. A
   `TypeError` (joining or iterating what cannot be) is an error.
   */
  function ApplyFormat(tag: Option<FormatTag>, rec: Record): (r: Result<Value, string>)
    ensures r.Err? <==>
      (tag == Some(SepSpace) && !Field(rec, "values").List?) ||
      (tag == Some(Mapping) && Field(rec, "permissions").Pairs?) ||
      (tag == Some(PairList) && Field(rec, "values").Undefined?)
    ensures tag.None? ==> r == Ok(Field(rec, "value"))
    ensures tag.Some? && r.Ok? ==> r.value.Str?
  {
    match tag
    case None => Ok(Field(rec, "value"))
    case Some(SepSpace) =>
      (match Field(rec, "values")
       case List(xs) => Ok(Str(SepSpaceText(xs)))
       case _ => Err(TypeError))
    case Some(Mapping) =>
      (match PermissionItems(Field(rec, "permissions"))
       case None => Err(TypeError)
       case Some(ps) =>
         Ok(Str(MappingText(Display(Field(rec, "host")), OptionalText(Field(rec, "container")), ps,
           Truthy(Field(rec, "ifExists"))))))
    case Some(PairList) =>
      (match EntriesOf(Field(rec, "values"))
       case None => Err(TypeError)
       case Some(es) => Ok(Str(PairText(es))))
    case Some(HostAndIp) => Ok(Str(HostIpText(Display(Field(rec, "hostname")), Display(Field(rec, "ip")))))
    case Some(AutoUpdateLabel) => Ok(Str(AutoUpdateText(Display(Field(rec, "value")))))
  }
}
