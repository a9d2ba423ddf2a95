/**
 Output generation: parsed records become `(key, value)` pairs, either keyed by the
 catalogue name (config mode) or by the `podman run` argument (command mode), and
 the pairs become quadlet lines or a `podman run` command line.
 */
module Generate {
  import opened Wrappers
  import opened Strings
  import opened Seqs
  import opened Assoc
  import opened Records
  import opened Catalogue
  import opened Formats
  import opened FormParser

  /** One output pair: a key and the formatted value. */
  type Pair = (string, Value)

  // ---------------------------------------------------------------------------
  // generatePairs

  /** The first field of the record that holds a pair map, and that map. */
  function FirstPairs(rec: Record): (r: Option<(string, Assoc<string>)>)
    ensures r.Some? ==> (r.value.0, Pairs(r.value.1)) in rec
    ensures r.None? ==> forall i :: 0 <= i < |rec| ==> !rec[i].1.Pairs?
  {
    if |rec| == 0 then None
    else if rec[0].1.Pairs? then Some((rec[0].0, rec[0].1.entries))
    else FirstPairs(rec[1..])
  }

  /** The format applied to a copy of the record whose field `param` holds only entry `i`. */
  function EntryFormats(tag: Option<FormatTag>, rec: Record, param: string, ps: Assoc<string>): (rs: seq<Result<Value, string>>)
    ensures |rs| == |ps| && forall i :: 0 <= i < |ps| ==> rs[i] == ApplyFormat(tag, Put(rec, param, Pairs([ps[i]])))
  {
    seq(|ps|, i requires 0 <= i < |ps| => ApplyFormat(tag, Put(rec, param, Pairs([ps[i]]))))
  }

  /** Pushing `(arg, value)` for each result in turn; the first error thrown ends the loop. */
  function Collect(arg: string, rs: seq<Result<Value, string>>): (r: Result<seq<Pair>, string>)
    ensures r.Ok? <==> forall i :: 0 <= i < |rs| ==> rs[i].Ok?
    ensures r.Ok? ==> |r.value| == |rs| && forall i :: 0 <= i < |rs| ==> r.value[i] == (arg, rs[i].value)
  {
    if |rs| == 0 then Ok([])
    else if rs[0].Err? then Err(rs[0].error)
    else
      match Collect(arg, rs[1..])
      case Err(e) => Err(e)
      case Ok(rest) => Ok([(arg, rs[0].value)] + rest)
  }

  /** One `(arg, format(...))` per map entry, each on a copy of the record holding just that entry. */
  function SplitPairs(arg: string, tag: Option<FormatTag>, rec: Record, param: string, ps: Assoc<string>): (r: Result<seq<Pair>, string>)
    ensures r.Ok? <==> forall i :: 0 <= i < |ps| ==> ApplyFormat(tag, Put(rec, param, Pairs([ps[i]]))).Ok?
    ensures r.Ok? ==> |r.value| == |ps| && forall i :: 0 <= i < |r.value| ==> r.value[i].0 == arg
    ensures r.Ok? ==> forall i :: 0 <= i < |ps| ==> ApplyFormat(tag, Put(rec, param, Pairs([ps[i]]))) == Ok(r.value[i].1)
  {
    Collect(arg, EntryFormats(tag, rec, param, ps))
  }

  /** `argFormat || format || identity`. */
  function CommandFormat(ctx: OptionDef): Option<FormatTag>
  {
    if ctx.argFormat.Some? then ctx.argFormat else ctx.format
  }

  /** The pairs of one record of option `name`. */
  function RecordPairs(name: string, ctx: OptionDef, rec: Record, argMode: bool): Result<seq<Pair>, string>
  {
    if !argMode then
      match ApplyFormat(ctx.format, rec)
      case Err(e) => Err(e)
      case Ok(v) => Ok([(name, v)])
    else
      match FirstPairs(rec)
      case Some((param, ps)) => SplitPairs(ctx.arg, CommandFormat(ctx), rec, param, ps)
      case None =>
        match ApplyFormat(CommandFormat(ctx), rec)
        case Err(e) => Err(e)
        case Ok(v) => Ok([(ctx.arg, v)])
  }

  function OptionPairs(name: string, ctx: OptionDef, recs: seq<Record>, argMode: bool): Result<seq<Pair>, string>
  {
    if |recs| == 0 then Ok([])
    else
      match RecordPairs(name, ctx, recs[0], argMode)
      case Err(e) => Err(e)
      case Ok(a) =>
        match OptionPairs(name, ctx, recs[1..], argMode)
        case Err(e) => Err(e)
        case Ok(b) => Ok(a + b)
  }

  /**
   `generatePairs`: options in result order, records in list order. The catalogue
   is consulted once per record, so an option the catalogue does not know (such as
   `undefined`) throws as soon as it has a record, and not at all when it has none.
   */
  function GeneratePairs(data: Results, argMode: bool): Result<seq<Pair>, string>
  {
    if |data| == 0 then Ok([])
    else if |data[0].1| == 0 then GeneratePairs(data[1..], argMode)
    else
      match Get(Container, data[0].0)
      case None => Err(TypeError)
      case Some(ctx) =>
        match OptionPairs(data[0].0, ctx, data[0].1, argMode)
        case Err(e) => Err(e)
        case Ok(a) =>
          match GeneratePairs(data[1..], argMode)
          case Err(e) => Err(e)
          case Ok(b) => Ok(a + b)
  }

  /** Every record with the name of its option, in output order. */
  function FlatRecords(data: Results): seq<(string, Record)>
  {
    if |data| == 0 then [] else Named(data[0].0, data[0].1) + FlatRecords(data[1..])
  }

  function Named(name: string, recs: seq<Record>): (r: seq<(string, Record)>)
    ensures |r| == |recs| && forall j :: 0 <= j < |recs| ==> r[j] == (name, recs[j])
  {
    seq(|recs|, j requires 0 <= j < |recs| => (name, recs[j]))
  }

  function PairKeys(ps: seq<Pair>): (ks: seq<string>)
    ensures |ks| == |ps| && forall i :: 0 <= i < |ps| ==> ks[i] == ps[i].0
  {
    seq(|ps|, i requires 0 <= i < |ps| => ps[i].0)
  }

  lemma PairKeysConcat(a: seq<Pair>, b: seq<Pair>)
    ensures PairKeys(a + b) == PairKeys(a) + PairKeys(b)
  {
  }

  /** In config mode each record gives one pair: the option's name and the record under `format`. */
  lemma {:induction false} ConfigOptionPairs(name: string, ctx: OptionDef, recs: seq<Record>)
    requires OptionPairs(name, ctx, recs, false).Ok?
    ensures var out := OptionPairs(name, ctx, recs, false).value;
      |out| == |recs| &&
      forall j :: 0 <= j < |recs| ==> out[j].0 == name && ApplyFormat(ctx.format, recs[j]) == Ok(out[j].1)
    decreases |recs|
  {
    if |recs| > 0 {
      ConfigOptionPairs(name, ctx, recs[1..]);
    }
  }

  /** Config mode never consults `argFormat`. */
  lemma {:induction false} ConfigIgnoresArgFormat(name: string, ctx: OptionDef, recs: seq<Record>, argFormat: Option<FormatTag>)
    ensures OptionPairs(name, ctx.(argFormat := argFormat), recs, false) == OptionPairs(name, ctx, recs, false)
    decreases |recs|
  {
    if |recs| > 0 {
      ConfigIgnoresArgFormat(name, ctx, recs[1..], argFormat);
    }
  }

  /**
   `out` holds one pair per record of `flat`, in order: the option's catalogue name
   and the record passed through that option's `format`.
   */
  predicate ConfigMatches(out: seq<Pair>, flat: seq<(string, Record)>)
  {
    |out| == |flat| &&
    forall i :: 0 <= i < |flat| ==>
      out[i].0 == flat[i].0 && Get(Container, flat[i].0).Some? &&
      ApplyFormat(Get(Container, flat[i].0).value.format, flat[i].1) == Ok(out[i].1)
  }

  lemma ConfigMatchesConcat(a: seq<Pair>, fa: seq<(string, Record)>, b: seq<Pair>, fb: seq<(string, Record)>)
    requires ConfigMatches(a, fa) && ConfigMatches(b, fb)
    ensures ConfigMatches(a + b, fa + fb)
  {
    forall i | |fa| <= i < |fa| + |fb|
      ensures (a + b)[i] == b[i - |fa|] && (fa + fb)[i] == fb[i - |fa|]
    {
    }
  }

  lemma ConfigMatchesOption(name: string, ctx: OptionDef, recs: seq<Record>)
    requires Get(Container, name) == Some(ctx) && OptionPairs(name, ctx, recs, false).Ok?
    ensures ConfigMatches(OptionPairs(name, ctx, recs, false).value, Named(name, recs))
  {
    ConfigOptionPairs(name, ctx, recs);
  }

  /** Config mode gives exactly one pair per record, in order, each the record under its option's `format`. */
  lemma {:induction false} ConfigPairsPerRecord(data: Results)
    requires GeneratePairs(data, false).Ok?
    ensures ConfigMatches(GeneratePairs(data, false).value, FlatRecords(data))
    decreases |data|
  {
    if |data| > 0 {
      ConfigPairsPerRecord(data[1..]);
      if |data[0].1| > 0 {
        var ctx := Get(Container, data[0].0).value;
        ConfigMatchesOption(data[0].0, ctx, data[0].1);
        ConfigMatchesConcat(OptionPairs(data[0].0, ctx, data[0].1, false).value, Named(data[0].0, data[0].1),
          GeneratePairs(data[1..], false).value, FlatRecords(data[1..]));
      } else {
        assert Named(data[0].0, data[0].1) == [];
      }
    }
  }

  // A reference description of generatePairs stated per record, as the loop consults the catalogue.

  /** Both results concatenated, or the first error. */
  function AndThen(x: Result<seq<Pair>, string>, y: Result<seq<Pair>, string>): Result<seq<Pair>, string>
  {
    match x
    case Err(e) => Err(e)
    case Ok(a) =>
      match y
      case Err(e) => Err(e)
      case Ok(b) => Ok(a + b)
  }

  /** The pairs of one record of option `name`, looking the option up first. */
  function LookedUpPairs(name: string, rec: Record, argMode: bool): Result<seq<Pair>, string>
  {
    match Get(Container, name)
    case None => Err(TypeError)
    case Some(ctx) => RecordPairs(name, ctx, rec, argMode)
  }

  /** The pairs `f` gives for every record in turn; the first error ends the loop. */
  function FlatMap(f: (string, Record) -> Result<seq<Pair>, string>, flat: seq<(string, Record)>): (r: Result<seq<Pair>, string>)
    ensures r.Ok? <==> forall i :: 0 <= i < |flat| ==> f(flat[i].0, flat[i].1).Ok?
  {
    if |flat| == 0 then Ok([])
    else
      var rest := FlatMap(f, flat[1..]);
      assert forall i :: 1 <= i < |flat| ==> flat[i] == flat[1..][i - 1];
      AndThen(f(flat[0].0, flat[0].1), rest)
  }

  /** Every record looked up and formatted in turn. */
  function FlatPairs(flat: seq<(string, Record)>, argMode: bool): (r: Result<seq<Pair>, string>)
    ensures r.Ok? <==> forall i :: 0 <= i < |flat| ==> LookedUpPairs(flat[i].0, flat[i].1, argMode).Ok?
  {
    FlatMap(LookUp(argMode), flat)
  }

  function LookUp(argMode: bool): (string, Record) -> Result<seq<Pair>, string>
  {
    (n: string, rec: Record) => LookedUpPairs(n, rec, argMode)
  }

  lemma {:induction false} FlatMapConcat(f: (string, Record) -> Result<seq<Pair>, string>, a: seq<(string, Record)>, b: seq<(string, Record)>)
    ensures FlatMap(f, a + b) == AndThen(FlatMap(f, a), FlatMap(f, b))
    decreases |a|
  {
    if |a| == 0 {
      assert a + b == b;
      match FlatMap(f, b)
      case Err(_) =>
      case Ok(y) => assert [] + y == y;
    } else {
      assert (a + b)[0] == a[0] && (a + b)[1..] == a[1..] + b;
      FlatMapConcat(f, a[1..], b);
      AndThenAssoc(f(a[0].0, a[0].1), FlatMap(f, a[1..]), FlatMap(f, b));
    }
  }

  /** An option's records, once its context is found, give the pairs `OptionPairs` gives. */
  lemma {:induction false} OptionPairsFlat(f: (string, Record) -> Result<seq<Pair>, string>, name: string, ctx: OptionDef, recs: seq<Record>, argMode: bool)
    requires forall rec :: f(name, rec) == RecordPairs(name, ctx, rec, argMode)
    ensures OptionPairs(name, ctx, recs, argMode) == FlatMap(f, Named(name, recs))
    decreases |recs|
  {
    if |recs| > 0 {
      var l := Named(name, recs);
      assert l[0] == (name, recs[0]) && l[1..] == Named(name, recs[1..]);
      OptionPairsFlat(f, name, ctx, recs[1..], argMode);
    }
  }

  lemma AndThenAssoc(x: Result<seq<Pair>, string>, y: Result<seq<Pair>, string>, z: Result<seq<Pair>, string>)
    ensures AndThen(AndThen(x, y), z) == AndThen(x, AndThen(y, z))
  {
    if x.Ok? && y.Ok? && z.Ok? {
      assert (x.value + y.value) + z.value == x.value + (y.value + z.value);
    }
  }

  /**
   In either mode, generation is the records' pairs concatenated in output order,
   each record looked up and formatted in turn, or the first error met.
   */
  lemma {:induction false} GeneratePairsPerRecord(data: Results, argMode: bool)
    ensures GeneratePairs(data, argMode) == FlatPairs(FlatRecords(data), argMode)
    decreases |data|
  {
    if |data| > 0 {
      GeneratePairsPerRecord(data[1..], argMode);
      var f := LookUp(argMode);
      var name := data[0].0;
      var recs := data[0].1;
      FlatMapConcat(f, Named(name, recs), FlatRecords(data[1..]));
      if |recs| == 0 {
        assert Named(name, recs) == [];
        match FlatPairs(FlatRecords(data[1..]), argMode)
        case Err(_) =>
        case Ok(y) => assert [] + y == y;
      } else {
        match Get(Container, name)
        case None =>
          assert Named(name, recs)[0] == (name, recs[0]);
        case Some(ctx) =>
          OptionPairsFlat(f, name, ctx, recs, argMode);
      }
    }
  }

  /** An option with no records is never looked up, whatever its name. */
  lemma EmptyOptionSkipped(name: string, rest: Results, argMode: bool)
    ensures GeneratePairs([(name, [])] + rest, argMode) == GeneratePairs(rest, argMode)
  {
    assert ([(name, [])] + rest)[1..] == rest;
  }

  /** An option outside the catalogue that has a record makes generation fail, in either mode. */
  lemma {:induction false} UnknownOptionFails(data: Results, argMode: bool, i: nat)
    requires i < |data| && data[i].0 !in Keys(Container) && |data[i].1| > 0
    ensures GeneratePairs(data, argMode).Err?
    decreases i
  {
    if i == 0 {
      assert Get(Container, data[0].0).None?;
    } else {
      assert data[1..][i - 1] == data[i];
      UnknownOptionFails(data[1..], argMode, i - 1);
    }
  }

  /**
   In command mode a record holding a pair map gives one pair per map entry, and
   any other record exactly one; every pair is keyed by the option's argument.
   */
  lemma CommandPairsPerRecord(name: string, ctx: OptionDef, rec: Record)
    requires RecordPairs(name, ctx, rec, true).Ok?
    ensures var out := RecordPairs(name, ctx, rec, true).value;
      |out| == (if FirstPairs(rec).Some? then |FirstPairs(rec).value.1| else 1) &&
      forall i :: 0 <= i < |out| ==> out[i].0 == ctx.arg
    ensures var out := RecordPairs(name, ctx, rec, true).value;
      FirstPairs(rec).Some? ==>
        var (param, ps) := FirstPairs(rec).value;
        forall i :: 0 <= i < |ps| ==> ApplyFormat(CommandFormat(ctx), Put(rec, param, Pairs([ps[i]]))) == Ok(out[i].1)
    ensures var out := RecordPairs(name, ctx, rec, true).value;
      FirstPairs(rec).None? ==> ApplyFormat(CommandFormat(ctx), rec) == Ok(out[0].1)
  {
  }

  /**
   Annotation's pair map is split: every entry becomes its own `annotation` argument
   holding just that `key=value` word, while config mode writes all of them in one value.
   */
  lemma AnnotationSplits(ps: Assoc<string>)
    requires |ps| > 0
    ensures var out := RecordPairs("Annotation", AnnotationOption, [("values", Pairs(ps))], true);
      out.Ok? && |out.value| == |ps| &&
      forall i :: 0 <= i < |ps| ==> out.value[i] == ("annotation", Str(PairWord(ps[i].0, ps[i].1)))
    ensures RecordPairs("Annotation", AnnotationOption, [("values", Pairs(ps))], false) == Ok([("Annotation", Str(PairText(ps)))])
  {
    var rec: Record := [("values", Pairs(ps))];
    assert FirstPairs(rec) == Some(("values", ps));
    forall i | 0 <= i < |ps|
      ensures ApplyFormat(Some(PairList), Put(rec, "values", Pairs([ps[i]]))) == Ok(Str(PairWord(ps[i].0, ps[i].1)))
    {
      assert Put(rec, "values", Pairs([ps[i]])) == [("values", Pairs([ps[i]]))];
      assert Words([ps[i]]) == [PairWord(ps[i].0, ps[i].1)];
    }
    CommandPairsPerRecord("Annotation", AnnotationOption, rec);
  }

  /** The example of two annotations: `annotation=A=B` and `annotation=C=D`. */
  lemma AnnotationExample()
    ensures RecordPairs("Annotation", AnnotationOption, [("values", Pairs([("A", "B"), ("C", "D")]))], true)
      == Ok([("annotation", Str("A=B")), ("annotation", Str("C=D"))])
  {
    AnnotationSplits([("A", "B"), ("C", "D")]);
    var out := RecordPairs("Annotation", AnnotationOption, [("values", Pairs([("A", "B"), ("C", "D")]))], true).value;
    assert PairWord("A", "B") == "A=B" && PairWord("C", "D") == "C=D";
    assert out == [out[0], out[1]];
  }

  /**
   AutoUpdate has only a command-line format: the run argument is the label
   `io.containers.autoupdate=<value>`, while the quadlet key keeps the plain value.
   */
  lemma AutoUpdatePairs(rec: Record)
    requires FirstPairs(rec).None?
    ensures RecordPairs("AutoUpdate", AutoUpdateOption, rec, true)
      == Ok([("label", Str("io.containers.autoupdate=" + Display(Field(rec, "value"))))])
    ensures RecordPairs("AutoUpdate", AutoUpdateOption, rec, false) == Ok([("AutoUpdate", Field(rec, "value"))])
  {
  }

  // ---------------------------------------------------------------------------
  // generateQuadlet

  function Line(p: Pair): string
  {
    p.0 + "=" + Display(p.1)
  }

  function Lines(ps: seq<Pair>): (ls: seq<string>)
    ensures |ls| == |ps| && forall i :: 0 <= i < |ps| ==> ls[i] == Line(ps[i])
  {
    seq(|ps|, i requires 0 <= i < |ps| => Line(ps[i]))
  }

  /** `key=value` lines joined by newlines. */
  function GenerateQuadlet(ps: seq<Pair>): string
  {
    Join(Lines(ps), "\n")
  }

  /** A key and the displayed value, as written on a line. */
  function TextPairs(ps: seq<Pair>): (ts: seq<(string, string)>)
    ensures |ts| == |ps| && forall i :: 0 <= i < |ps| ==> ts[i] == (ps[i].0, Display(ps[i].1))
  {
    seq(|ps|, i requires 0 <= i < |ps| => (ps[i].0, Display(ps[i].1)))
  }

  /** Reading quadlet text back: split into lines, each cut at its first `=`. */
  function UnQuadlet(s: string): (r: seq<(string, string)>)
  {
    var ls := Split(s, '\n');
    seq(|ls|, i requires 0 <= i < |ls| => CutAtEquals(ls[i]))
  }

  lemma LineReadsBack(p: Pair)
    requires '=' !in p.0
    ensures CutAtEquals(Line(p)) == (p.0, Display(p.1))
  {
    var l := Line(p);
    assert l == p.0 + ("=" + Display(p.1));
    CutAtEqualsContent(p.0, Display(p.1));
  }

  lemma LineAvoidsNewline(p: Pair)
    requires '\n' !in p.0 && '\n' !in Display(p.1)
    ensures '\n' !in Line(p)
  {
    assert Line(p) == p.0 + ['='] + Display(p.1);
  }

  /**
   Quadlet output has one line per pair, in order, and each line reads back as its
   key and displayed value; provided keys hold no `=` and neither side a newline.
   */
  lemma QuadletRoundTrip(ps: seq<Pair>)
    requires |ps| > 0
    requires forall i :: 0 <= i < |ps| ==> '=' !in ps[i].0 && '\n' !in ps[i].0 && '\n' !in Display(ps[i].1)
    ensures UnQuadlet(GenerateQuadlet(ps)) == TextPairs(ps)
  {
    var ls := Lines(ps);
    forall i | 0 <= i < |ls|
      ensures '\n' !in ls[i]
    {
      LineAvoidsNewline(ps[i]);
    }
    SplitJoin(ls, '\n');
    forall i | 0 <= i < |ps|
      ensures CutAtEquals(ls[i]) == TextPairs(ps)[i]
    {
      LineReadsBack(ps[i]);
    }
  }

  // ---------------------------------------------------------------------------
  // generatePodmanRun

  /** The loop state: global arguments, run arguments, and the last image and exec seen. */
  datatype RunArgs = RunArgs(globalArgs: seq<Value>, args: seq<string>, image: Value, exec: Value)

  /** The `switch` on one pair's key. */
  function AddArg(st: RunArgs, p: Pair): RunArgs
  {
    match p.0
    case "image" => st.(image := p.1)
    case "exec" => st.(exec := p.1)
    case "module" => st.(globalArgs := st.globalArgs + [p.1])
    case _ => st.(args := st.args + ["--" + p.0 + " " + Display(p.1)])
  }

  function CollectArgs(ps: seq<Pair>): RunArgs
  {
    if |ps| == 0 then RunArgs([], [], Undefined, Undefined)
    else AddArg(CollectArgs(ps[..|ps| - 1]), ps[|ps| - 1])
  }

  /** `.filter(Boolean)` followed by the string conversion of `join`. */
  function Shown(vs: seq<Value>): (r: seq<string>)
    ensures |r| <= |vs|
  {
    if |vs| == 0 then []
    else (if Truthy(vs[0]) then [Display(vs[0])] else []) + Shown(vs[1..])
  }

  function Strs(ss: seq<string>): (vs: seq<Value>)
    ensures |vs| == |ss| && forall i :: 0 <= i < |ss| ==> vs[i] == Str(ss[i])
  {
    seq(|ss|, i requires 0 <= i < |ss| => Str(ss[i]))
  }

  /** `["podman", ...globalArgs, "run", ...args, image, exec].filter(Boolean).join(" ")`. */
  function GeneratePodmanRun(ps: seq<Pair>): string
  {
    var st := CollectArgs(ps);
    Join(Shown([Str("podman")] + st.globalArgs + [Str("run")] + Strs(st.args) + [st.image, st.exec]), " ")
  }

  // A reference description of the command's words, stated without the loop.

  /** The values of the `module` pairs, in order. */
  function Modules(ps: seq<Pair>): seq<Value>
  {
    if |ps| == 0 then [] else (if ps[0].0 == "module" then [ps[0].1] else []) + Modules(ps[1..])
  }

  /** `--key value` for every pair that is not `image`, `exec` or `module`, in order. */
  function Flags(ps: seq<Pair>): seq<string>
  {
    if |ps| == 0 then []
    else
      (if ps[0].0 in ["image", "exec", "module"] then [] else ["--" + ps[0].0 + " " + Display(ps[0].1)])
        + Flags(ps[1..])
  }

  /** The value of the last pair with key `k`; `undefined` when there is none. */
  function LastValue(ps: seq<Pair>, k: string): (v: Value)
    ensures (forall i :: 0 <= i < |ps| ==> ps[i].0 != k) ==> v.Undefined?
  {
    if |ps| == 0 then Undefined
    else if ps[|ps| - 1].0 == k then ps[|ps| - 1].1
    else LastValue(ps[..|ps| - 1], k)
  }

  /** The words of the command: `podman`, the module values, `run`, the flags, the last image, the last exec; falsy ones dropped. */
  function PodmanWords(ps: seq<Pair>): seq<string>
  {
    ["podman"] + Shown(Modules(ps)) + ["run"] + Flags(ps) + Shown([LastValue(ps, "image"), LastValue(ps, "exec")])
  }

  lemma {:induction false} ModulesSnoc(ps: seq<Pair>, p: Pair)
    ensures Modules(ps + [p]) == Modules(ps) + (if p.0 == "module" then [p.1] else [])
    decreases |ps|
  {
    if |ps| == 0 {
      assert [p][1..] == [];
    } else {
      var q := ps + [p];
      assert q[0] == ps[0] && q[1..] == ps[1..] + [p];
      ModulesSnoc(ps[1..], p);
      var h := if ps[0].0 == "module" then [ps[0].1] else [];
      assert Modules(q) == h + Modules(ps[1..] + [p]);
      assert Modules(ps) == h + Modules(ps[1..]);
    }
  }

  lemma {:induction false} FlagsSnoc(ps: seq<Pair>, p: Pair)
    ensures Flags(ps + [p]) == Flags(ps) + (if p.0 in ["image", "exec", "module"] then [] else ["--" + p.0 + " " + Display(p.1)])
    decreases |ps|
  {
    if |ps| == 0 {
      assert [p][1..] == [];
    } else {
      var q := ps + [p];
      assert q[0] == ps[0] && q[1..] == ps[1..] + [p];
      FlagsSnoc(ps[1..], p);
      var h := if ps[0].0 in ["image", "exec", "module"] then [] else ["--" + ps[0].0 + " " + Display(ps[0].1)];
      assert Flags(q) == h + Flags(ps[1..] + [p]);
      assert Flags(ps) == h + Flags(ps[1..]);
    }
  }

  /** The loop collects exactly the reference parts. */
  lemma {:induction false} CollectArgsParts(ps: seq<Pair>)
    ensures CollectArgs(ps) == RunArgs(Modules(ps), Flags(ps), LastValue(ps, "image"), LastValue(ps, "exec"))
    decreases |ps|
  {
    if |ps| > 0 {
      var init := ps[..|ps| - 1];
      var p := ps[|ps| - 1];
      CollectArgsParts(init);
      assert init + [p] == ps;
      ModulesSnoc(init, p);
      FlagsSnoc(init, p);
    }
  }

  lemma {:induction false} ShownConcat(a: seq<Value>, b: seq<Value>)
    ensures Shown(a + b) == Shown(a) + Shown(b)
    decreases |a|
  {
    if |a| == 0 {
      assert a + b == b;
    } else {
      var t := a[1..];
      assert (a + b)[0] == a[0] && (a + b)[1..] == t + b;
      ShownConcat(t, b);
      var h := if Truthy(a[0]) then [Display(a[0])] else [];
      assert Shown(a + b) == h + Shown(t + b);
      assert Shown(a) == h + Shown(t);
    }
  }

  lemma {:induction false} ShownStrs(ss: seq<string>)
    requires forall i :: 0 <= i < |ss| ==> ss[i] != ""
    ensures Shown(Strs(ss)) == ss
    decreases |ss|
  {
    if |ss| > 0 {
      var t := ss[1..];
      assert Strs(ss)[0] == Str(ss[0]) && Strs(ss)[1..] == Strs(t);
      ShownStrs(t);
      assert Shown(Strs(ss)) == [ss[0]] + Shown(Strs(t));
      assert ss == [ss[0]] + t;
    }
  }

  lemma FlagsNonEmpty(ps: seq<Pair>)
    ensures forall i :: 0 <= i < |Flags(ps)| ==> Flags(ps)[i] != ""
  {
    if |ps| > 0 {
      FlagsNonEmpty(ps[1..]);
      var head: seq<string> := if ps[0].0 in ["image", "exec", "module"] then [] else ["--" + ps[0].0 + " " + Display(ps[0].1)];
      assert Flags(ps) == head + Flags(ps[1..]);
      forall i | 0 <= i < |Flags(ps)|
        ensures Flags(ps)[i] != ""
      {
        if i >= |head| {
          assert Flags(ps)[i] == Flags(ps[1..])[i - |head|];
        }
      }
    }
  }

  /**
   The command line is the reference words joined by single spaces: `podman`, the
   module values before `run`, the other pairs as `--key value` in order, then the
   last image and the last exec, with falsy parts left out.
   */
  lemma PodmanRunWords(ps: seq<Pair>)
    ensures GeneratePodmanRun(ps) == Join(PodmanWords(ps), " ")
  {
    CollectArgsParts(ps);
    var st := CollectArgs(ps);
    var head: seq<Value> := [Str("podman")] + st.globalArgs;
    var run: seq<Value> := [Str("run")];
    var tail: seq<Value> := [st.image, st.exec];
    ShownConcat([Str("podman")], st.globalArgs);
    ShownConcat(head, run);
    ShownConcat(head + run, Strs(st.args));
    ShownConcat(head + run + Strs(st.args), tail);
    FlagsNonEmpty(ps);
    ShownStrs(st.args);
    assert Shown([Str("podman")]) == ["podman"];
    assert Shown(run) == ["run"];
  }

  /** The command always starts with `podman`. */
  lemma PodmanRunStartsWithPodman(ps: seq<Pair>)
    ensures |GeneratePodmanRun(ps)| >= 6 && GeneratePodmanRun(ps)[..6] == "podman"
  {
    PodmanRunWords(ps);
    var ws := PodmanWords(ps);
    assert ws[0] == "podman" && |ws| >= 2;
    assert Join(ws, " ") == "podman" + " " + Join(ws[1..], " ");
  }
}
