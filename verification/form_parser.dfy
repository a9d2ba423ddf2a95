/**
 The form-data parser: a single left-to-right pass over `name=value` entries that
 regroups them into, per option, the list of records (one record per instance of
 the option). Arrays (`o.p[i]`) and pairs (`o.p.keys[i]`, `o.p.values[i]`) are
 collected in side buffers and stored into the record when a field or record ends.
 */
module FormParser {
  import opened Wrappers
  import opened Strings
  import opened Seqs
  import opened Assoc
  import opened Records
  import opened FieldNames

  /** One form entry: the input's name and its submitted value. */
  type Entry = (string, string)

  /** Option name to the records collected for it, in first-appearance order. */
  type Results = Assoc<seq<Record>>

  /**
   The parser's working state: the result so far, the option, field and pair key
   of the last accepted entry (unset at the start), the record being filled, and
   the array and pair buffers of the field being read.
   */
  datatype ParserState = ParserState(
    results: Results,
    prevOption: Option<string>,
    prevField: Option<string>,
    prevPairKey: Option<string>,
    params: Record,
    arrayBuf: seq<string>,
    pairBuf: Assoc<string>)

  const Start := ParserState([], None, None, None, [], [], [])

  /** The records stored so far under `k`. */
  function RecordsOf(res: Results, k: string): seq<Record>
  {
    match Get(res, k)
    case None => []
    case Some(l) => l
  }

  /** The entries the parser passes over: the submit button, empty values and names under `submit`. */
  predicate Skipped(e: Entry)
  {
    e.0 == "submit" || e.1 == "" || Split(e.0, '.')[0] == "submit"
  }

  /** An entry is skipped or carries a well-formed field name. */
  predicate Admissible(e: Entry)
  {
    Skipped(e) || Decode(e.0).Some?
  }

  predicate AllAdmissible(es: seq<Entry>)
  {
    forall i :: 0 <= i < |es| ==> Admissible(es[i])
  }

  /** `result[k] ??= []; result[k].push(rec)`. */
  function Push(res: Results, k: string, rec: Record): (r: Results)
    ensures Keys(r) == Insert(Keys(res), k)
    ensures Get(r, k) == Some(RecordsOf(res, k) + [rec])
  {
    PutGet(res, k, RecordsOf(res, k) + [rec], k);
    Put(res, k, RecordsOf(res, k) + [rec])
  }

  /** The first record of an option appends the option, with a one-record list, at the end. */
  lemma PushFresh(res: Results, k: string, rec: Record)
    requires k !in Keys(res)
    ensures Push(res, k, rec) == res + [(k, [rec])]
  {
    assert RecordsOf(res, k) + [rec] == [rec];
    PutFresh(res, k, [rec]);
  }

  /** A further record of an option already present is appended to its list, which keeps its place. */
  lemma PushExisting(res: Results, k: string, rec: Record, i: nat)
    requires i < |res| && res[i].0 == k && forall j :: 0 <= j < i ==> res[j].0 != k
    ensures Push(res, k, rec) == res[..i] + [(k, res[i].1 + [rec])] + res[i + 1..]
  {
    GetAt(res, k, i);
    PutAt(res, k, RecordsOf(res, k) + [rec], i);
  }

  /** The same, for the first option. */
  lemma PushFirst(res: Results, k: string, rec: Record)
    requires |res| > 0 && res[0].0 == k
    ensures Push(res, k, rec) == [(k, res[0].1 + [rec])] + res[1..]
  {
    PushExisting(res, k, rec, 0);
    assert res[..0] == [];
  }

  /** Pushing under one option leaves every other option's list as it was. */
  lemma PushOther(res: Results, k: string, rec: Record, k': string)
    requires k' != k
    ensures RecordsOf(Push(res, k, rec), k') == RecordsOf(res, k')
  {
    PutGet(res, k, RecordsOf(res, k) + [rec], k');
  }

  /** Store a pending array, then pending pairs, under the last field; empty buffers store nothing. */
  function FlushFields(st: ParserState): (r: ParserState)
    ensures r.arrayBuf == [] && r.pairBuf == []
    ensures r.results == st.results && r.prevOption == st.prevOption
    ensures r.prevField == st.prevField && r.prevPairKey == st.prevPairKey
    ensures |st.arrayBuf| == 0 && |st.pairBuf| == 0 ==> r.params == st.params
    ensures |st.pairBuf| == 0 && |st.arrayBuf| != 0 ==> Get(r.params, PropertyKey(st.prevField)) == Some(List(st.arrayBuf))
    ensures |st.pairBuf| != 0 ==> Get(r.params, PropertyKey(st.prevField)) == Some(Pairs(st.pairBuf))
    ensures Keys(r.params) == if |st.arrayBuf| == 0 && |st.pairBuf| == 0 then Keys(st.params) else Insert(Keys(st.params), PropertyKey(st.prevField))
    ensures forall k :: k != PropertyKey(st.prevField) ==> Get(r.params, k) == Get(st.params, k)
  {
    var key := PropertyKey(st.prevField);
    PutGet(st.params, key, List(st.arrayBuf), key);
    PutFrame(st.params, key, List(st.arrayBuf));
    var st1 :=
      if |st.arrayBuf| != 0 then st.(params := Put(st.params, PropertyKey(st.prevField), List(st.arrayBuf)), arrayBuf := [])
      else st;
    PutGet(st1.params, key, Pairs(st1.pairBuf), key);
    PutFrame(st1.params, key, Pairs(st1.pairBuf));
    if |st1.pairBuf| != 0 then st1.(params := Put(st1.params, PropertyKey(st1.prevField), Pairs(st1.pairBuf)), pairBuf := [])
    else st1
  }

  /** Append the record being filled to the last option's list and start an empty record. */
  function FlushRecord(st: ParserState): (r: ParserState)
    ensures r.params == []
    ensures RecordsOf(r.results, PropertyKey(st.prevOption)) == RecordsOf(st.results, PropertyKey(st.prevOption)) + [st.params]
    ensures r.prevOption == st.prevOption && r.prevField == st.prevField && r.prevPairKey == st.prevPairKey
    ensures r.arrayBuf == st.arrayBuf && r.pairBuf == st.pairBuf
  {
    st.(results := Push(st.results, PropertyKey(st.prevOption), st.params), params := [])
  }

  /** Both flushes: the record being filled, with its buffers, is closed. */
  function Close(st: ParserState): ParserState
  {
    FlushRecord(FlushFields(st))
  }

  /** A new option closes the record of the previous one, if there was one. */
  function EnterOption(st: ParserState, option: string): (r: ParserState)
    ensures r.prevOption == Some(option)
  {
    if Some(option) != st.prevOption then
      (if st.prevOption.Some? then Close(st) else st).(prevOption := Some(option))
    else st
  }

  /**
   The same option continues the record; the first option only sets it; any other
   option closes the record, buffers included, into the previous option's list.
   */
  lemma EnterOptionCases(st: ParserState, option: string)
    ensures st.prevOption == Some(option) ==> EnterOption(st, option) == st
    ensures st.prevOption == None ==> EnterOption(st, option) == st.(prevOption := Some(option))
    ensures st.prevOption.Some? && st.prevOption != Some(option) ==>
      var r := EnterOption(st, option);
      RecordsOf(r.results, st.prevOption.value) == RecordsOf(st.results, st.prevOption.value) + [FlushFields(st).params] &&
      r.params == [] && r.arrayBuf == [] && r.pairBuf == []
  {
  }

  /** A bracketed entry: a pair key, a pair value, or an array item. */
  function AcceptIndexed(st: ParserState, f: FieldRef, value: string): ParserState
    requires f.index.Some?
  {
    var st1 :=
      if (f.index.value != |st.arrayBuf| || Some(f.field) != st.prevField) && |st.arrayBuf| != 0 then Close(st)
      else st;
    Fill(st1, f, value)
  }

  /** Store a bracketed entry's value in its buffer. */
  function Fill(st1: ParserState, f: FieldRef, value: string): ParserState
  {
    var st2 :=
      if f.role == Some("keys") then st1.(prevPairKey := Some(value))
      else if f.role == Some("values") then st1.(pairBuf := Put(st1.pairBuf, PropertyKey(st1.prevPairKey), value))
      else st1.(arrayBuf := st1.arrayBuf + [value]);
    st2.(prevField := Some(f.field))
  }

  /** An array item that does not continue the pending array closes the record and starts a new array. */
  lemma IndexedRestart(st: ParserState, f: FieldRef, v: string)
    requires f.index.Some? && f.role == None && |st.arrayBuf| > 0
    requires f.index.value != |st.arrayBuf| || st.prevField != Some(f.field)
    ensures AcceptIndexed(st, f, v) == Close(st).(arrayBuf := [v], prevField := Some(f.field))
  {
    var c := Close(st);
    assert AcceptIndexed(st, f, v) == Fill(c, f, v);
    assert c.arrayBuf + [v] == [v];
  }

  /** A pair key met while an array of another field, or at another index, is pending closes the record too. */
  lemma PairKeyRestart(st: ParserState, f: FieldRef, v: string)
    requires f.index.Some? && f.role == Some("keys") && |st.arrayBuf| > 0
    requires f.index.value != |st.arrayBuf| || st.prevField != Some(f.field)
    ensures AcceptIndexed(st, f, v) == Close(st).(prevPairKey := Some(v), prevField := Some(f.field))
  {
    assert AcceptIndexed(st, f, v) == Fill(Close(st), f, v);
  }

  /**
   A scalar entry. A field the record already holds closes the record, after the
   value has also been written under the previous field of the closed record.
   */
  function AcceptScalar(st: ParserState, f: FieldRef, value: string): ParserState
  {
    var st1 := FlushFields(st);
    var st2 :=
      if f.field in Keys(st1.params) then FlushRecord(st1.(params := Put(st1.params, PropertyKey(st1.prevField), Str(value))))
      else st1;
    st2.(params := Put(st2.params, f.field, Str(value)), prevField := Some(f.field))
  }

  /** An accepted entry with decoded name `f`. */
  function Accept(st: ParserState, f: FieldRef, value: string): ParserState
  {
    var st1 := EnterOption(st, f.option);
    if f.index.Some? then AcceptIndexed(st1, f, value) else AcceptScalar(st1, f, value)
  }

  /** One iteration of the parser loop. */
  function Step(st: ParserState, e: Entry): ParserState
    requires Admissible(e)
  {
    if Skipped(e) then st else Accept(st, Decode(e.0).value, e.1)
  }

  /** The loop over `es`, from state `st`. */
  function Run(st: ParserState, es: seq<Entry>): ParserState
    requires AllAdmissible(es)
    decreases |es|
  {
    if |es| == 0 then st
    else Step(Run(st, es[..|es| - 1]), es[|es| - 1])
  }

  /** `parseFormData`: the loop, then the last record is closed. */
  function Parse(es: seq<Entry>): Results
    requires AllAdmissible(es)
  {
    Close(Run(Start, es)).results
  }
}
