/**
 The shape of what the parser returns: every option holds at least one record,
 and no record holds a blank value, an unset value or the same field twice, since
 empty values are skipped and every store goes through property assignment.
 */
module ParserClean {
  import opened Wrappers
  import opened Seqs
  import opened Assoc
  import opened Records
  import opened FieldNames
  import opened FormParser

  /** A stored value: a non-empty string, a non-empty array of them, or a non-empty pair map of them. */
  predicate CleanValue(x: Value)
  {
    match x
    case Undefined => false
    case Str(t) => t != ""
    case List(xs) => |xs| > 0 && forall i :: 0 <= i < |xs| ==> xs[i] != ""
    case Pairs(ps) => |ps| > 0 && UniqueKeys(ps) && forall i :: 0 <= i < |ps| ==> ps[i].1 != ""
  }

  predicate CleanRecord(r: Record)
  {
    UniqueKeys(r) && forall i :: 0 <= i < |r| ==> CleanValue(r[i].1)
  }

  /** A non-empty list of clean records. */
  predicate CleanList(recs: seq<Record>)
  {
    |recs| > 0 && forall j :: 0 <= j < |recs| ==> CleanRecord(recs[j])
  }

  predicate CleanResults(res: Results)
  {
    UniqueKeys(res) && forall i :: 0 <= i < |res| ==> CleanList(res[i].1)
  }

  predicate NonBlank(t: string)
  {
    t != ""
  }

  /** The invariant of the loop: the result, the record being filled and both buffers are clean. */
  predicate CleanState(st: ParserState)
  {
    CleanResults(st.results) && CleanRecord(st.params) &&
    (forall i :: 0 <= i < |st.arrayBuf| ==> st.arrayBuf[i] != "") &&
    UniqueKeys(st.pairBuf) && (forall i :: 0 <= i < |st.pairBuf| ==> st.pairBuf[i].1 != "")
  }

  lemma PutCleanValue(r: Record, k: string, x: Value)
    requires CleanRecord(r) && CleanValue(x)
    ensures CleanRecord(Put(r, k, x))
  {
    PutValues(r, k, x, CleanValue);
  }

  lemma PushClean(res: Results, k: string, rec: Record)
    requires CleanResults(res) && CleanRecord(rec)
    ensures CleanResults(Push(res, k, rec))
  {
    GetValue(res, k, CleanList);
    var l := RecordsOf(res, k) + [rec];
    assert CleanList(l) by {
      assert forall j :: 0 <= j < |l| - 1 ==> l[j] == RecordsOf(res, k)[j];
    }
    PutValues(res, k, l, CleanList);
  }

  lemma FlushFieldsClean(st: ParserState)
    requires CleanState(st)
    ensures CleanState(FlushFields(st))
  {
    var key := PropertyKey(st.prevField);
    if |st.arrayBuf| != 0 {
      PutCleanValue(st.params, key, List(st.arrayBuf));
      var st1 := st.(params := Put(st.params, key, List(st.arrayBuf)), arrayBuf := []);
      if |st1.pairBuf| != 0 {
        PutCleanValue(st1.params, key, Pairs(st1.pairBuf));
      }
    } else if |st.pairBuf| != 0 {
      PutCleanValue(st.params, key, Pairs(st.pairBuf));
    }
  }

  lemma CloseClean(st: ParserState)
    requires CleanState(st)
    ensures CleanState(Close(st))
  {
    FlushFieldsClean(st);
    var st1 := FlushFields(st);
    PushClean(st1.results, PropertyKey(st1.prevOption), st1.params);
  }

  lemma EnterOptionClean(st: ParserState, o: string)
    requires CleanState(st)
    ensures CleanState(EnterOption(st, o))
  {
    if Some(o) != st.prevOption && st.prevOption.Some? {
      CloseClean(st);
    }
  }

  lemma AcceptIndexedClean(st: ParserState, f: FieldRef, v: string)
    requires CleanState(st) && f.index.Some? && v != ""
    ensures CleanState(AcceptIndexed(st, f, v))
  {
    var split := (f.index.value != |st.arrayBuf| || Some(f.field) != st.prevField) && |st.arrayBuf| != 0;
    var st1 := if split then Close(st) else st;
    if split {
      CloseClean(st);
    }
    BufferClean(st1, f, v);
  }

  /** Storing a bracketed value in the buffers keeps the state clean. */
  lemma BufferClean(st1: ParserState, f: FieldRef, v: string)
    requires CleanState(st1) && v != ""
    ensures CleanState((
      if f.role == Some("keys") then st1.(prevPairKey := Some(v))
      else if f.role == Some("values") then st1.(pairBuf := Put(st1.pairBuf, PropertyKey(st1.prevPairKey), v))
      else st1.(arrayBuf := st1.arrayBuf + [v])).(prevField := Some(f.field)))
  {
    if f.role == Some("values") {
      PutValues(st1.pairBuf, PropertyKey(st1.prevPairKey), v, NonBlank);
    } else if f.role != Some("keys") {
      var a := st1.arrayBuf + [v];
      assert forall i :: 0 <= i < |a| - 1 ==> a[i] == st1.arrayBuf[i];
    }
  }

  lemma AcceptScalarClean(st: ParserState, f: FieldRef, v: string)
    requires CleanState(st) && v != ""
    ensures CleanState(AcceptScalar(st, f, v))
  {
    FlushFieldsClean(st);
    var st1 := FlushFields(st);
    var st2 := st1;
    if f.field in Keys(st1.params) {
      PutCleanValue(st1.params, PropertyKey(st1.prevField), Str(v));
      var closing := Put(st1.params, PropertyKey(st1.prevField), Str(v));
      PushClean(st1.results, PropertyKey(st1.prevOption), closing);
      st2 := FlushRecord(st1.(params := closing));
    }
    assert CleanState(st2);
    PutCleanValue(st2.params, f.field, Str(v));
  }

  lemma AcceptClean(st: ParserState, f: FieldRef, v: string)
    requires CleanState(st) && v != ""
    ensures CleanState(Accept(st, f, v))
  {
    EnterOptionClean(st, f.option);
    if f.index.Some? {
      AcceptIndexedClean(EnterOption(st, f.option), f, v);
    } else {
      AcceptScalarClean(EnterOption(st, f.option), f, v);
    }
  }

  lemma {:induction false} RunClean(st: ParserState, es: seq<Entry>)
    requires CleanState(st) && AllAdmissible(es)
    ensures CleanState(Run(st, es))
    decreases |es|
  {
    if |es| > 0 {
      var init := es[..|es| - 1];
      var e := es[|es| - 1];
      assert AllAdmissible(init) by {
        assert forall i :: 0 <= i < |init| ==> init[i] == es[i];
      }
      RunClean(st, init);
      if !Skipped(e) {
        AcceptClean(Run(st, init), Decode(e.0).value, e.1);
      }
    }
  }

  /**
   Every option of the result holds at least one record; the options are distinct;
   no record repeats a field or holds an empty or unset value, an empty array or an
   empty pair map.
   */
  lemma ParseClean(es: seq<Entry>)
    requires AllAdmissible(es)
    ensures CleanResults(Parse(es))
  {
    RunClean(Start, es);
    CloseClean(Run(Start, es));
  }
}
