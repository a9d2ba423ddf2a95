/**
 What the form-data parser guarantees: skipped entries leave no trace, options are
 listed in the order they first appear, per-option record lists only ever grow at
 the end, and the array, pair and repeated-field rules decide where a record ends.
 */
module ParserFacts {
  import opened Wrappers
  import opened Strings
  import opened Seqs
  import opened Assoc
  import opened Records
  import opened Catalogue
  import opened FieldNames
  import opened FormParser

  // ---------------------------------------------------------------------------
  // Skipped entries

  /** The entries of `es` the parser does not skip, in order. */
  function Accepted(es: seq<Entry>): (r: seq<Entry>)
    ensures forall i :: 0 <= i < |r| ==> r[i] in es && !Skipped(r[i])
    ensures forall i :: 0 <= i < |es| && !Skipped(es[i]) ==> es[i] in r
    ensures |r| <= |es|
  {
    if |es| == 0 then []
    else
      var init := Accepted(es[..|es| - 1]);
      assert forall e :: e in es[..|es| - 1] ==> e in es;
      assert forall i :: 0 <= i < |es| - 1 ==> es[..|es| - 1][i] == es[i];
      if Skipped(es[|es| - 1]) then init else init + [es[|es| - 1]]
  }

  /** Filtering a concatenation filters each part, keeping the order. */
  lemma {:induction false} AcceptedConcat(a: seq<Entry>, b: seq<Entry>)
    ensures Accepted(a + b) == Accepted(a) + Accepted(b)
    decreases |b|
  {
    if |b| == 0 {
      assert a + b == a;
    } else {
      var b' := b[..|b| - 1];
      assert (a + b)[..|a + b| - 1] == a + b';
      AcceptedConcat(a, b');
    }
  }

  /** A single entry is kept exactly when it is not skipped. */
  lemma AcceptedOne(e: Entry)
    ensures Accepted([e]) == if Skipped(e) then [] else [e]
  {
    assert [e][..0] == [];
  }

  lemma AcceptedAdmissible(es: seq<Entry>)
    requires AllAdmissible(es)
    ensures AllAdmissible(Accepted(es))
  {
    forall i | 0 <= i < |Accepted(es)|
      ensures Admissible(Accepted(es)[i])
    {
      var e := Accepted(es)[i];
      var j :| 0 <= j < |es| && es[j] == e;
    }
  }

  /** Running over `es` is running over its accepted entries alone. */
  lemma {:induction false} RunSkipsSkipped(st: ParserState, es: seq<Entry>)
    requires AllAdmissible(es)
    ensures AllAdmissible(Accepted(es))
    ensures Run(st, es) == Run(st, Accepted(es))
    decreases |es|
  {
    AcceptedAdmissible(es);
    if |es| > 0 {
      var init := es[..|es| - 1];
      var e := es[|es| - 1];
      assert AllAdmissible(init) by {
        assert forall i :: 0 <= i < |init| ==> init[i] == es[i];
      }
      RunSkipsSkipped(st, init);
      if !Skipped(e) {
        var acc := Accepted(es);
        assert acc[..|acc| - 1] == Accepted(init);
      }
    }
  }

  /** Skipped entries (the submit button, empty values, names under `submit`) never affect the result. */
  lemma ParseSkipsSkipped(es: seq<Entry>)
    requires AllAdmissible(es)
    ensures AllAdmissible(Accepted(es))
    ensures Parse(es) == Parse(Accepted(es))
  {
    RunSkipsSkipped(Start, es);
  }

  // ---------------------------------------------------------------------------
  // Option order

  /** The option of every accepted entry, in order. */
  function Options(es: seq<Entry>): seq<string>
    requires AllAdmissible(es)
    decreases |es|
  {
    if |es| == 0 then []
    else
      var init := es[..|es| - 1];
      var e := es[|es| - 1];
      assert AllAdmissible(init) by {
        assert forall i :: 0 <= i < |init| ==> init[i] == es[i];
      }
      if Skipped(e) then Options(init) else Options(init) + [Decode(e.0).value.option]
  }

  /**
   The options seen so far are the result's keys, except that the current option
   may still be missing from them because its first record is not closed yet.
   */
  predicate OptionsSeen(st: ParserState, opts: seq<string>)
  {
    if |opts| == 0 then st.prevOption == None && st.results == []
    else st.prevOption == Some(opts[|opts| - 1]) && Insert(Keys(st.results), opts[|opts| - 1]) == Distinct(opts)
  }

  /** A record closed under the current option adds nothing beyond the current option to the keys. */
  lemma CloseKeys(st: ParserState)
    ensures Keys(Close(st).results) == Insert(Keys(st.results), PropertyKey(st.prevOption))
  {
  }

  /** Within one option, the result's keys only ever gain that option. */
  predicate SameOptionKeys(a: ParserState, b: ParserState)
  {
    b.prevOption == a.prevOption &&
    Insert(Keys(b.results), PropertyKey(a.prevOption)) == Insert(Keys(a.results), PropertyKey(a.prevOption))
  }

  lemma AcceptIndexedKeys(st: ParserState, f: FieldRef, v: string)
    requires f.index.Some?
    ensures SameOptionKeys(st, AcceptIndexed(st, f, v))
  {
  }

  lemma AcceptScalarKeys(st: ParserState, f: FieldRef, v: string)
    ensures SameOptionKeys(st, AcceptScalar(st, f, v))
  {
  }

  /** One accepted entry extends the options seen by its option. */
  lemma AcceptOptions(st: ParserState, opts: seq<string>, f: FieldRef, v: string)
    requires OptionsSeen(st, opts)
    ensures OptionsSeen(Accept(st, f, v), opts + [f.option])
  {
    var opts' := opts + [f.option];
    assert opts'[..|opts|] == opts;
    assert Distinct(opts') == Insert(Distinct(opts), f.option);
    var st1 := EnterOption(st, f.option);
    if |opts| > 0 {
      var last := opts[|opts| - 1];
      if f.option == last {
        DistinctElements(opts);
        assert last in opts;
      } else {
        CloseKeys(st);
        assert Insert(Keys(st1.results), f.option) == Insert(Distinct(opts), f.option);
      }
    }
    assert Insert(Keys(st1.results), f.option) == Distinct(opts');
    if f.index.Some? {
      AcceptIndexedKeys(st1, f, v);
    } else {
      AcceptScalarKeys(st1, f, v);
    }
  }

  lemma {:induction false} RunOptions(es: seq<Entry>)
    requires AllAdmissible(es)
    ensures OptionsSeen(Run(Start, es), Options(es))
    decreases |es|
  {
    if |es| > 0 {
      var init := es[..|es| - 1];
      var e := es[|es| - 1];
      assert AllAdmissible(init) by {
        assert forall i :: 0 <= i < |init| ==> init[i] == es[i];
      }
      RunOptions(init);
      if !Skipped(e) {
        AcceptOptions(Run(Start, init), Options(init), Decode(e.0).value, e.1);
      }
    }
  }

  /**
   The result lists each option of an accepted entry once, in order of first
   appearance; with no accepted entry it holds the one empty record under the
   key `undefined`.
   */
  lemma ParseOptionOrder(es: seq<Entry>)
    requires AllAdmissible(es)
    ensures Keys(Parse(es)) == if |Options(es)| == 0 then ["undefined"] else Distinct(Options(es))
    ensures |Options(es)| == 0 ==> Parse(es) == [("undefined", [[]])]
  {
    RunOptions(es);
    CloseKeys(Run(Start, es));
    if |Options(es)| == 0 {
      OptionsCount(es);
      ParseSkipsSkipped(es);
      assert Accepted(es) == [];
      assert FlushFields(Start) == Start;
      PushFresh([], "undefined", []);
    }
  }

  /** One option per accepted entry. */
  lemma {:induction false} OptionsCount(es: seq<Entry>)
    requires AllAdmissible(es)
    ensures |Options(es)| == |Accepted(es)|
    decreases |es|
  {
    if |es| > 0 {
      var init := es[..|es| - 1];
      assert AllAdmissible(init) by {
        assert forall i :: 0 <= i < |init| ==> init[i] == es[i];
      }
      OptionsCount(init);
    }
  }

  /** So each option appears exactly once, and only options of accepted entries appear. */
  lemma ParseOptionsUnique(es: seq<Entry>)
    requires AllAdmissible(es) && |Options(es)| > 0
    ensures NoDuplicates(Keys(Parse(es)))
    ensures forall o :: o in Keys(Parse(es)) <==> o in Options(es)
  {
    ParseOptionOrder(es);
    DistinctElements(Options(es));
  }

  // ---------------------------------------------------------------------------
  // Record lists only grow at the end

  /** Every option's record list in `b` extends the one in `a`. */
  ghost predicate Extends(a: Results, b: Results)
  {
    forall k :: RecordsOf(a, k) <= RecordsOf(b, k)
  }

  lemma PushExtends(res: Results, k: string, rec: Record)
    ensures Extends(res, Push(res, k, rec))
  {
    forall k' | k' != k
      ensures RecordsOf(res, k') <= RecordsOf(Push(res, k, rec), k')
    {
      PushOther(res, k, rec, k');
    }
  }

  lemma CloseExtends(st: ParserState)
    ensures Extends(st.results, Close(st).results)
  {
    PushExtends(FlushFields(st).results, PropertyKey(st.prevOption), FlushFields(st).params);
  }

  lemma EnterOptionExtends(st: ParserState, o: string)
    ensures Extends(st.results, EnterOption(st, o).results)
  {
    if Some(o) != st.prevOption && st.prevOption.Some? {
      CloseExtends(st);
    }
  }

  lemma AcceptIndexedExtends(st: ParserState, f: FieldRef, v: string)
    requires f.index.Some?
    ensures Extends(st.results, AcceptIndexed(st, f, v).results)
  {
    if (f.index.value != |st.arrayBuf| || Some(f.field) != st.prevField) && |st.arrayBuf| != 0 {
      CloseExtends(st);
    }
  }

  lemma AcceptScalarExtends(st: ParserState, f: FieldRef, v: string)
    ensures Extends(st.results, AcceptScalar(st, f, v).results)
  {
    var st1 := FlushFields(st);
    if f.field in Keys(st1.params) {
      PushExtends(st1.results, PropertyKey(st1.prevOption), Put(st1.params, PropertyKey(st1.prevField), Str(v)));
    }
  }

  lemma ExtendsTrans(a: Results, b: Results, c: Results)
    requires Extends(a, b) && Extends(b, c)
    ensures Extends(a, c)
  {
  }

  lemma AcceptExtends(st: ParserState, f: FieldRef, v: string)
    ensures Extends(st.results, Accept(st, f, v).results)
  {
    var st1 := EnterOption(st, f.option);
    EnterOptionExtends(st, f.option);
    if f.index.Some? {
      AcceptIndexedExtends(st1, f, v);
      ExtendsTrans(st.results, st1.results, AcceptIndexed(st1, f, v).results);
    } else {
      AcceptScalarExtends(st1, f, v);
      ExtendsTrans(st.results, st1.results, AcceptScalar(st1, f, v).results);
    }
  }

  /**
   Records are appended to their option's list in the order they are closed and
   are never removed or reordered: the lists after more entries extend the lists
   before.
   */
  lemma {:induction false} RunExtends(st: ParserState, es: seq<Entry>)
    requires AllAdmissible(es)
    ensures Extends(st.results, Run(st, es).results)
    decreases |es|
  {
    if |es| > 0 {
      var init := es[..|es| - 1];
      var e := es[|es| - 1];
      assert AllAdmissible(init) by {
        assert forall i :: 0 <= i < |init| ==> init[i] == es[i];
      }
      RunExtends(st, init);
      if !Skipped(e) {
        AcceptExtends(Run(st, init), Decode(e.0).value, e.1);
      }
    }
  }

  /** Running over two stretches of entries is running over the first, then the second. */
  lemma {:induction false} RunConcat(st: ParserState, a: seq<Entry>, b: seq<Entry>)
    requires AllAdmissible(a) && AllAdmissible(b)
    ensures AllAdmissible(a + b)
    ensures Run(st, a + b) == Run(Run(st, a), b)
    decreases |b|
  {
    assert forall i :: 0 <= i < |a + b| ==> (a + b)[i] == if i < |a| then a[i] else b[i - |a|];
    if |b| > 0 {
      var init := b[..|b| - 1];
      assert AllAdmissible(init) by {
        assert forall i :: 0 <= i < |init| ==> init[i] == b[i];
      }
      RunConcat(st, a, init);
      assert (a + b)[..|a + b| - 1] == a + init;
      var e := b[|b| - 1];
      assert (a + b)[|a + b| - 1] == e;
      assert Run(st, a + b) == Step(Run(st, a + init), e);
      assert Run(Run(st, a), b) == Step(Run(Run(st, a), init), e);
    } else {
      assert a + b == a;
    }
  }

  // ---------------------------------------------------------------------------
  // One entry at a time

  /** A rendered name is not the submit button and is not under `submit`. */
  lemma EncodedNotSubmit(k: FieldKey)
    requires PlainName(k.option) && PlainName(k.param) && k.option != "submit"
    ensures Encode(k) != "submit" && Split(Encode(k), '.')[0] != "submit"
  {
    EncodeFirstSegment(k);
    SplitNoSep("submit", '.');
  }

  /** The loop body on an entry that is not skipped and decodes to `f`. */
  lemma StepAccepts(st: ParserState, name: string, v: string, f: FieldRef)
    requires name != "submit" && v != "" && Split(name, '.')[0] != "submit" && Decode(name) == Some(f)
    ensures Admissible((name, v)) && !Skipped((name, v))
    ensures Step(st, (name, v)) == Accept(st, f, v)
  {
  }

  /** A rendered name with a non-empty value is decodable and not skipped. */
  lemma StepEncoded(st: ParserState, k: FieldKey, v: string)
    requires PlainName(k.option) && PlainName(k.param) && k.option != "submit" && v != ""
    ensures Admissible((Encode(k), v)) && !Skipped((Encode(k), v))
    ensures Step(st, (Encode(k), v)) == Accept(st, RefOf(k), v)
  {
    DecodeEncode(k);
    EncodedNotSubmit(k);
    StepAccepts(st, Encode(k), v, RefOf(k));
  }

  /**
   An array item whose index differs from the number of items collected, or whose
   field differs from the last one, closes the record and starts a new array
   holding just this item.
   */
  lemma ItemOutOfSequence(st: ParserState, o: string, p: string, n: nat, v: string)
    requires PlainName(o) && PlainName(p) && o != "submit" && v != ""
    requires st.prevOption == Some(o) && |st.arrayBuf| > 0
    requires n != |st.arrayBuf| || st.prevField != Some(p)
    ensures Admissible((Encode(Item(o, p, n)), v))
    ensures var r := Step(st, (Encode(Item(o, p, n)), v));
      RecordsOf(r.results, o) == RecordsOf(st.results, o) + [FlushFields(st).params] &&
      r.params == [] && r.arrayBuf == [v] && r.prevField == Some(p)
  {
    StepEncoded(st, Item(o, p, n), v);
    assert RefOf(Item(o, p, n)) == FieldRef(o, p, None, Some(n));
    ItemRestartFed(st, o, p, n, v);
    CloseFed(st);
  }

  /**
   A scalar field the record already holds closes it: the option gains exactly one
   record, which carries the new value under the previous field as well, and the
   new record holds just this field.
   */
  lemma RepeatedScalar(st: ParserState, o: string, f: string, v: string)
    requires PlainName(o) && PlainName(f) && o != "submit" && v != ""
    requires st.prevOption == Some(o) && f in Keys(FlushFields(st).params)
    ensures Admissible((Encode(Scalar(o, f)), v))
    ensures var r := Step(st, (Encode(Scalar(o, f)), v));
      var closed := Put(FlushFields(st).params, PropertyKey(st.prevField), Str(v));
      RecordsOf(r.results, o) == RecordsOf(st.results, o) + [closed] &&
      Field(closed, PropertyKey(st.prevField)) == Str(v) &&
      r.params == [(f, Str(v))]
  {
    StepEncoded(st, Scalar(o, f), v);
    PutGet(FlushFields(st).params, PropertyKey(st.prevField), Str(v), PropertyKey(st.prevField));
  }

  /** A scalar field new to the record is added to it; no record is closed. */
  lemma FreshScalar(st: ParserState, o: string, f: string, v: string)
    requires PlainName(o) && PlainName(f) && o != "submit" && v != ""
    requires st.prevOption == Some(o) && f !in Keys(FlushFields(st).params)
    ensures Admissible((Encode(Scalar(o, f)), v))
    ensures var r := Step(st, (Encode(Scalar(o, f)), v));
      r.results == st.results &&
      Keys(r.params) == Keys(FlushFields(st).params) + [f] &&
      Field(r.params, f) == Str(v)
    ensures Step(st, (Encode(Scalar(o, f)), v)).params == FlushFields(st).params + [(f, Str(v))]
  {
    StepEncoded(st, Scalar(o, f), v);
    PutGet(FlushFields(st).params, f, Str(v), f);
    PutFresh(FlushFields(st).params, f, Str(v));
  }

  /**
   An entry of another option closes the pending record, buffers included, into
   the previous option's list; the new option gets no record yet.
   */
  lemma OptionChange(st: ParserState, o: string, f: FieldRef, v: string)
    requires st.prevOption == Some(o) && f.option != o
    ensures RecordsOf(Accept(st, f, v).results, o) == RecordsOf(st.results, o) + [FlushFields(st).params]
    ensures RecordsOf(Accept(st, f, v).results, f.option) == RecordsOf(st.results, f.option)
  {
    var st1 := EnterOption(st, f.option);
    assert st1 == Close(st).(prevOption := Some(f.option));
    PushOther(st.results, o, FlushFields(st).params, f.option);
    FreshRecordKeepsResults(st1, f, v);
  }

  /** Right after a record is closed, the next entry closes nothing. */
  lemma FreshRecordKeepsResults(st: ParserState, f: FieldRef, v: string)
    requires st.prevOption == Some(f.option) && st.params == [] && st.arrayBuf == [] && st.pairBuf == []
    ensures Accept(st, f, v).results == st.results
  {
  }

  /** A pair key is only remembered; pair entries never close a record while no array is pending. */
  lemma PairKeyBuffered(st: ParserState, o: string, p: string, n: nat, k: string)
    requires PlainName(o) && PlainName(p) && o != "submit" && k != ""
    requires st.prevOption == Some(o) && st.arrayBuf == []
    ensures Admissible((Encode(PairKey(o, p, n)), k))
    ensures Step(st, (Encode(PairKey(o, p, n)), k)) == st.(prevPairKey := Some(k), prevField := Some(p))
  {
    StepEncoded(st, PairKey(o, p, n), k);
  }

  /** A pair value is stored under the remembered key; a key already present is overwritten in place. */
  lemma PairValueStored(st: ParserState, o: string, p: string, n: nat, v: string)
    requires PlainName(o) && PlainName(p) && o != "submit" && v != ""
    requires st.prevOption == Some(o) && st.arrayBuf == []
    ensures Admissible((Encode(PairValue(o, p, n)), v))
    ensures var r := Step(st, (Encode(PairValue(o, p, n)), v));
      var key := PropertyKey(st.prevPairKey);
      Get(r.pairBuf, key) == Some(v) &&
      Keys(r.pairBuf) == Insert(Keys(st.pairBuf), key) &&
      r.results == st.results && r.params == st.params && r.prevField == Some(p)
    ensures var r := Step(st, (Encode(PairValue(o, p, n)), v));
      forall k :: k != PropertyKey(st.prevPairKey) ==> Get(r.pairBuf, k) == Get(st.pairBuf, k)
  {
    StepEncoded(st, PairValue(o, p, n), v);
    PutGet(st.pairBuf, PropertyKey(st.prevPairKey), v, PropertyKey(st.prevPairKey));
    PutFrame(st.pairBuf, PropertyKey(st.prevPairKey), v);
  }

  /** A `keys` entry followed by a `values` entry stores the value under the key. */
  lemma KeyThenValue(st: ParserState, o: string, p: string, n: nat, m: nat, k: string, v: string)
    requires PlainName(o) && PlainName(p) && o != "submit" && k != "" && v != ""
    requires st.prevOption == Some(o) && st.arrayBuf == []
    ensures AllAdmissible([(Encode(PairKey(o, p, n)), k), (Encode(PairValue(o, p, m)), v)])
    ensures var r := Run(st, [(Encode(PairKey(o, p, n)), k), (Encode(PairValue(o, p, m)), v)]);
      Get(r.pairBuf, k) == Some(v) && r.results == st.results && r.params == st.params
  {
    var es := [(Encode(PairKey(o, p, n)), k), (Encode(PairValue(o, p, m)), v)];
    PairKeyBuffered(st, o, p, n, k);
    var st1 := st.(prevPairKey := Some(k), prevField := Some(p));
    PairValueStored(st1, o, p, m, v);
    assert es[..1] == [es[0]];
    assert Run(st, es[..1]) == st1;
  }

  // ---------------------------------------------------------------------------
  // Decoded runs

  /** Entry `e` is accepted and decodes to the name and value of `f`. */
  predicate Reads(e: Entry, f: (FieldRef, string))
  {
    !Skipped(e) && Decode(e.0) == Some(f.0) && e.1 == f.1
  }

  /** The loop over entries already decoded. */
  function Feed(st: ParserState, fs: seq<(FieldRef, string)>): ParserState
    decreases |fs|
  {
    if |fs| == 0 then st else Accept(Feed(st, fs[..|fs| - 1]), fs[|fs| - 1].0, fs[|fs| - 1].1)
  }

  /** Running over entries that each read as the matching decoded entry is feeding those. */
  lemma {:induction false} RunFeed(st: ParserState, es: seq<Entry>, fs: seq<(FieldRef, string)>)
    requires |es| == |fs| && forall i :: 0 <= i < |es| ==> Reads(es[i], fs[i])
    ensures AllAdmissible(es)
    ensures Run(st, es) == Feed(st, fs)
    decreases |es|
  {
    if |es| > 0 {
      var n := |es| - 1;
      RunFeed(st, es[..n], fs[..n]);
      assert Reads(es[n], fs[n]);
    }
  }

  /** A rendered name with a non-empty value reads as its decoded key. */
  lemma EncodedReads(k: FieldKey, v: string)
    requires PlainName(k.option) && PlainName(k.param) && k.option != "submit" && v != ""
    ensures Reads((Encode(k), v), (RefOf(k), v))
  {
    DecodeEncode(k);
    EncodedNotSubmit(k);
  }

  /** A rendered name, given as text, reads as its decoded key. */
  lemma NameReads(e: Entry, k: FieldKey)
    requires PlainName(k.option) && PlainName(k.param) && k.option != "submit" && e.1 != ""
    requires e.0 == Encode(k)
    ensures Reads(e, (RefOf(k), e.1))
  {
    EncodedReads(k, e.1);
  }

  /** Feeding one more decoded entry. */
  lemma FeedSnoc(st: ParserState, fs: seq<(FieldRef, string)>, f: (FieldRef, string))
    ensures Feed(st, fs + [f]) == Accept(Feed(st, fs), f.0, f.1)
  {
    assert (fs + [f])[..|fs|] == fs;
  }

  /**
   A scalar field new to the record, in the option being read or as the first
   entry: pending buffers are stored and the field is appended to the record.
   */
  lemma FreshScalarFed(st: ParserState, f: FieldRef, v: string)
    requires f.index.None?
    requires st.prevOption == Some(f.option) || (st.prevOption == None && st.arrayBuf == [])
    requires f.field !in Keys(FlushFields(st).params)
    ensures Accept(st, f, v) ==
      FlushFields(st).(prevOption := Some(f.option), params := FlushFields(st).params + [(f.field, Str(v))], prevField := Some(f.field))
  {
    PutFresh(FlushFields(st).params, f.field, Str(v));
  }

  /** A pending array is stored, at the end of the record, under a field the record does not hold yet. */
  lemma FlushArrayFresh(st: ParserState)
    requires st.pairBuf == [] && st.arrayBuf != [] && PropertyKey(st.prevField) !in Keys(st.params)
    ensures FlushFields(st) == st.(params := st.params + [(PropertyKey(st.prevField), List(st.arrayBuf))], arrayBuf := [])
  {
    PutFresh(st.params, PropertyKey(st.prevField), List(st.arrayBuf));
  }

  /** An item out of sequence: the record is closed and a new array starts with this item. */
  lemma ItemRestartFed(st: ParserState, o: string, p: string, n: nat, v: string)
    requires st.prevOption == Some(o) && |st.arrayBuf| > 0
    requires n != |st.arrayBuf| || st.prevField != Some(p)
    ensures Accept(st, FieldRef(o, p, None, Some(n)), v) == Close(st).(arrayBuf := [v], prevField := Some(p))
  {
    assert EnterOption(st, o) == st;
    IndexedRestart(st, FieldRef(o, p, None, Some(n)), v);
  }

  /** An entry of another option is read as if the record of the previous option had been closed first. */
  lemma OptionChangeFed(st: ParserState, f: FieldRef, v: string)
    requires st.prevOption.Some? && st.prevOption != Some(f.option)
    ensures Accept(st, f, v) == Accept(Close(st).(prevOption := Some(f.option)), f, v)
  {
  }

  /** Closing a state: the pending record, buffers stored, joins its option's list. */
  lemma CloseFed(st: ParserState)
    ensures Close(st) == FlushFields(st).(results := Push(st.results, PropertyKey(st.prevOption), FlushFields(st).params), params := [])
  {
  }

  // ---------------------------------------------------------------------------
  // Arrays

  /** `es` are the entries `o.p[m]`, `o.p[m + 1]`, ... carrying `vs`. */
  predicate ItemRun(es: seq<Entry>, o: string, p: string, m: nat, vs: seq<string>)
  {
    |es| == |vs| && forall i :: 0 <= i < |es| ==> es[i] == (Encode(Item(o, p, m + i)), vs[i])
  }

  /** `fs` is their decoded form. */
  predicate ItemRefs(fs: seq<(FieldRef, string)>, o: string, p: string, m: nat, vs: seq<string>)
  {
    |fs| == |vs| && forall i :: 0 <= i < |fs| ==> fs[i] == (FieldRef(o, p, None, Some(m + i)), vs[i])
  }

  lemma ItemRunReads(st: ParserState, es: seq<Entry>, fs: seq<(FieldRef, string)>, o: string, p: string, m: nat, vs: seq<string>)
    requires PlainName(o) && PlainName(p) && o != "submit"
    requires forall i :: 0 <= i < |vs| ==> vs[i] != ""
    requires ItemRun(es, o, p, m, vs) && ItemRefs(fs, o, p, m, vs)
    ensures AllAdmissible(es)
    ensures Run(st, es) == Feed(st, fs)
  {
    forall i | 0 <= i < |es|
      ensures Reads(es[i], fs[i])
    {
      EncodedReads(Item(o, p, m + i), vs[i]);
    }
    RunFeed(st, es, fs);
  }

  /** The next index of the field being collected appends its value to the array. */
  lemma ItemAppends(st: ParserState, o: string, p: string, v: string)
    requires st.prevOption == Some(o) || (st.prevOption == None && |st.arrayBuf| == 0)
    requires |st.arrayBuf| > 0 ==> st.prevField == Some(p)
    ensures Accept(st, FieldRef(o, p, None, Some(|st.arrayBuf|)), v) ==
      st.(prevOption := Some(o), arrayBuf := st.arrayBuf + [v], prevField := Some(p))
  {
    var st1 := EnterOption(st, o);
    assert st1 == st.(prevOption := Some(o));
  }

  /** One more item on an array already collected from `st` extends it. */
  lemma ExtendArray(st: ParserState, o: string, p: string, init: seq<string>, v: string)
    ensures var s := st.(prevOption := Some(o), arrayBuf := st.arrayBuf + init, prevField := Some(p));
      Accept(s, FieldRef(o, p, None, Some(|st.arrayBuf| + |init|)), v) ==
      st.(prevOption := Some(o), arrayBuf := st.arrayBuf + (init + [v]), prevField := Some(p))
  {
    var s := st.(prevOption := Some(o), arrayBuf := st.arrayBuf + init, prevField := Some(p));
    ItemAppends(s, o, p, v);
    assert (st.arrayBuf + init) + [v] == st.arrayBuf + (init + [v]);
  }

  /**
   Items of one field with consecutive indices, starting at the number already
   collected, all land in the one array, in order; no record is closed.
   */
  lemma {:induction false} CollectArray(st: ParserState, fs: seq<(FieldRef, string)>, o: string, p: string, vs: seq<string>)
    requires st.prevOption == Some(o) || (st.prevOption == None && |st.arrayBuf| == 0)
    requires |st.arrayBuf| > 0 ==> st.prevField == Some(p)
    requires ItemRefs(fs, o, p, |st.arrayBuf|, vs)
    ensures Feed(st, fs) ==
      if |vs| == 0 then st else st.(prevOption := Some(o), arrayBuf := st.arrayBuf + vs, prevField := Some(p))
    decreases |vs|
  {
    var m := |st.arrayBuf|;
    if |vs| > 0 {
      var n := |vs| - 1;
      var init := vs[..n];
      assert ItemRefs(fs[..n], o, p, m, init);
      CollectArray(st, fs[..n], o, p, init);
      CollectArrayStep(st, fs, o, p, vs);
    }
  }

  /** The last item of the run extends the array the earlier items built. */
  lemma CollectArrayStep(st: ParserState, fs: seq<(FieldRef, string)>, o: string, p: string, vs: seq<string>)
    requires st.prevOption == Some(o) || (st.prevOption == None && |st.arrayBuf| == 0)
    requires |st.arrayBuf| > 0 ==> st.prevField == Some(p)
    requires ItemRefs(fs, o, p, |st.arrayBuf|, vs) && |vs| > 0
    requires var n := |vs| - 1;
      Feed(st, fs[..n]) == if n == 0 then st else st.(prevOption := Some(o), arrayBuf := st.arrayBuf + vs[..n], prevField := Some(p))
    ensures Feed(st, fs) == st.(prevOption := Some(o), arrayBuf := st.arrayBuf + vs, prevField := Some(p))
  {
    var n := |vs| - 1;
    LastRef(fs, o, p, |st.arrayBuf|, vs);
    LastItem(st, o, p, vs, Feed(st, fs[..n]), fs[n].0, fs[n].1);
    FeedLast(st, fs);
  }

  lemma LastRef(fs: seq<(FieldRef, string)>, o: string, p: string, m: nat, vs: seq<string>)
    requires ItemRefs(fs, o, p, m, vs) && |vs| > 0
    ensures |fs| == |vs| && fs[|vs| - 1] == (FieldRef(o, p, None, Some(m + |vs| - 1)), vs[|vs| - 1])
  {
  }

  /** Accepting the last item after the state the earlier items built. */
  lemma LastItem(st: ParserState, o: string, p: string, vs: seq<string>, s: ParserState, f: FieldRef, v: string)
    requires st.prevOption == Some(o) || (st.prevOption == None && |st.arrayBuf| == 0)
    requires |st.arrayBuf| > 0 ==> st.prevField == Some(p)
    requires |vs| > 0 && v == vs[|vs| - 1] && f == FieldRef(o, p, None, Some(|st.arrayBuf| + |vs| - 1))
    requires s == if |vs| == 1 then st else st.(prevOption := Some(o), arrayBuf := st.arrayBuf + vs[..|vs| - 1], prevField := Some(p))
    ensures Accept(s, f, v) == st.(prevOption := Some(o), arrayBuf := st.arrayBuf + vs, prevField := Some(p))
  {
    if |vs| == 1 {
      ItemAppends(st, o, p, v);
      assert [v] == vs;
    } else {
      ExtendArrayAt(st, o, p, vs, s, f, v);
    }
  }

  lemma FeedLast(st: ParserState, fs: seq<(FieldRef, string)>)
    requires |fs| > 0
    ensures Feed(st, fs) == Accept(Feed(st, fs[..|fs| - 1]), fs[|fs| - 1].0, fs[|fs| - 1].1)
  {
  }

  /** The item after `vs`'s first `|vs| - 1` items completes `vs`. */
  lemma ExtendArrayAt(st: ParserState, o: string, p: string, vs: seq<string>, s: ParserState, f: FieldRef, v: string)
    requires |vs| > 1 && v == vs[|vs| - 1] && f == FieldRef(o, p, None, Some(|st.arrayBuf| + |vs| - 1))
    requires s == st.(prevOption := Some(o), arrayBuf := st.arrayBuf + vs[..|vs| - 1], prevField := Some(p))
    ensures Accept(s, f, v) == st.(prevOption := Some(o), arrayBuf := st.arrayBuf + vs, prevField := Some(p))
  {
    ExtendArray(st, o, p, vs[..|vs| - 1], v);
    assert vs[..|vs| - 1] + [v] == vs;
  }

  /** A form holding only the items `o.p[0]`, ..., `o.p[k-1]` gives one record with the array `p`. */
  lemma ParseArrayAlone(es: seq<Entry>, o: string, p: string, vs: seq<string>)
    requires PlainName(o) && PlainName(p) && o != "submit" && |vs| > 0
    requires forall i :: 0 <= i < |vs| ==> vs[i] != ""
    requires ItemRun(es, o, p, 0, vs)
    ensures AllAdmissible(es)
    ensures Parse(es) == [(o, [[(p, List(vs))]])]
  {
    var fs := seq(|vs|, i requires 0 <= i < |vs| => (FieldRef(o, p, None, Some(i)), vs[i]));
    ItemRunReads(Start, es, fs, o, p, 0, vs);
    CollectArray(Start, fs, o, p, vs);
    var last := Start.(prevOption := Some(o), arrayBuf := vs, prevField := Some(p));
    ParseCloses(es, last);
    CloseArrayOnly(o, p, vs);
  }

  lemma CloseArrayOnly(o: string, p: string, vs: seq<string>)
    requires |vs| > 0
    ensures Close(Start.(prevOption := Some(o), arrayBuf := vs, prevField := Some(p))).results == [(o, [[(p, List(vs))]])]
  {
    var last := Start.(prevOption := Some(o), arrayBuf := vs, prevField := Some(p));
    var rec := [(p, List(vs))];
    assert FlushFields(last).params == rec;
    assert RecordsOf([], o) + [rec] == [rec];
    assert Push([], o, rec) == [(o, [rec])];
  }

  /** `Parse` closes the state the loop ends in. */
  lemma ParseCloses(es: seq<Entry>, last: ParserState)
    requires AllAdmissible(es) && Run(Start, es) == last
    ensures Parse(es) == Close(last).results
  {
  }
}
