/**
 The test table of the form parser: each case is an object of field names and
 values, turned into form data, parsed, and compared with the expected result as
 serialised JSON (so the order of options and of fields counts). A name may carry
 a `/tag` suffix, which lets one object hold the same field name twice; the tag is
 dropped before the entry is appended.
 */
module Fixtures {
  import opened Wrappers
  import opened Strings
  import opened Records
  import opened FieldNames
  import opened FormParser
  import opened ParserFacts
  import opened Catalogue
  import opened Assoc

  /** The name without its tag: the part before the first `/`, or the whole name. */
  function StripTag(key: string): (r: string)
    ensures '/' !in key ==> r == key
    ensures '/' in key ==> '/' !in r && r + ['/'] <= key
  {
    var i := IndexOf(key, '/');
    if i == -1 then key else key[..i]
  }

  /** A tag is cut off at the first `/`, whatever the tag holds. */
  lemma StripTagged(name: string, tag: string)
    requires '/' !in name
    ensures StripTag(name + "/" + tag) == name
  {
    var s := name + "/" + tag;
    assert s == name + ("/" + tag);
    IndexOfConcat(name, "/" + tag, '/');
    assert s[..|name|] == name;
  }

  /** Stripping twice strips nothing more. */
  lemma StripTagIdempotent(key: string)
    ensures StripTag(StripTag(key)) == StripTag(key)
  {
  }

  /** `generateFormData`: one entry per key, in order, under the stripped name. */
  function GenerateFormData(obj: seq<(string, string)>): (r: seq<Entry>)
    ensures |r| == |obj|
    ensures forall i :: 0 <= i < |obj| ==> r[i].0 == StripTag(obj[i].0) && r[i].1 == obj[i].1
  {
    if |obj| == 0 then [] else [(StripTag(obj[0].0), obj[0].1)] + GenerateFormData(obj[1..])
  }

  /** Without tags the form data is the object's entries as they are. */
  lemma {:induction false} UntaggedFormData(obj: seq<(string, string)>)
    requires forall i :: 0 <= i < |obj| ==> '/' !in obj[i].0
    ensures GenerateFormData(obj) == obj
  {
    if |obj| > 0 {
      UntaggedFormData(obj[1..]);
    }
  }

  // ---------------------------------------------------------------------------
  // The ten cases

  /** Parsing entries that each read as their decoded form is closing the fed state. */
  lemma ParseFed(es: seq<Entry>, fs: seq<(FieldRef, string)>)
    requires |es| == |fs| && forall i :: 0 <= i < |es| ==> Reads(es[i], fs[i])
    ensures AllAdmissible(es)
    ensures Parse(es) == Close(Feed(Start, fs)).results
  {
    RunFeed(Start, es, fs);
  }

  lemma ParseFed1(es: seq<Entry>, fs: seq<(FieldRef, string)>)
    requires |es| == 1 && |fs| == 1 && Reads(es[0], fs[0])
    ensures AllAdmissible(es)
    ensures Parse(es) == Close(Feed(Start, fs)).results
  {
    forall i | 0 <= i < |es|
      ensures Reads(es[i], fs[i])
    {
      assert i == 0;
    }
    ParseFed(es, fs);
  }

  lemma ParseFed2(es: seq<Entry>, fs: seq<(FieldRef, string)>)
    requires |es| == 2 && |fs| == 2 && Reads(es[0], fs[0]) && Reads(es[1], fs[1])
    ensures AllAdmissible(es)
    ensures Parse(es) == Close(Feed(Start, fs)).results
  {
    forall i | 0 <= i < |es|
      ensures Reads(es[i], fs[i])
    {
      assert i == 0 || i == 1;
    }
    ParseFed(es, fs);
  }

  lemma ParseFed3(es: seq<Entry>, fs: seq<(FieldRef, string)>)
    requires |es| == 3 && |fs| == 3 && Reads(es[0], fs[0]) && Reads(es[1], fs[1]) && Reads(es[2], fs[2])
    ensures AllAdmissible(es)
    ensures Parse(es) == Close(Feed(Start, fs)).results
  {
    forall i | 0 <= i < |es|
      ensures Reads(es[i], fs[i])
    {
      assert i == 0 || i == 1 || i == 2;
    }
    ParseFed(es, fs);
  }

  const Dev := "/dev/device"
  const BindCap := "CAP_NET_BIND_SERVICE"
  const SyslogCap := "CAP_SYSLOG"

  const Host := ("device.host", Dev)
  const DevContainer := ("device.container", Dev)
  const Dummy := ("cap-add.dummy", "dummy")
  const Bind := ("cap-add.options[0]", BindCap)
  const Syslog := ("cap-add.options[1]", SyslogCap)

  const HostRef := (FieldRef("device", "host", None, None), Dev)
  const DevContainerRef := (FieldRef("device", "container", None, None), Dev)
  const DummyRef := (FieldRef("cap-add", "dummy", None, None), "dummy")
  const BindRef := (FieldRef("cap-add", "options", None, Some(0)), BindCap)
  const SyslogRef := (FieldRef("cap-add", "options", None, Some(1)), SyslogCap)
  const SyslogFirstRef := (FieldRef("cap-add", "options", None, Some(0)), SyslogCap)

  /** The option and parameter names of the `device` entries are field-name safe. */
  lemma DeviceNamesPlain()
    ensures PlainName("device") && PlainName("host") && PlainName("container") && "device" != "submit"
  {
  }

  /** They carry no tag. */
  lemma DeviceNamesUntagged()
    ensures '/' !in "device" && '/' !in "host" && '/' !in "container"
  {
  }

  /** The option and parameter names of the `cap-add` entries are field-name safe. */
  lemma CapNamesPlain()
    ensures PlainName("cap-add") && PlainName("dummy") && PlainName("options") && "cap-add" != "submit"
  {
  }

  /** They carry no tag. */
  lemma CapNamesUntagged()
    ensures '/' !in "cap-add" && '/' !in "dummy" && '/' !in "options"
  {
  }

  /** A rendered name carries no tag when its option and parameter carry none. */
  lemma EncodeUntagged(k: FieldKey)
    requires '/' !in k.option && '/' !in k.param
    ensures '/' !in Encode(k)
  {
    if !k.Scalar? {
      var d := NatToString(k.index);
      assert forall i :: 0 <= i < |d| ==> d[i] != '/';
    }
  }

  lemma HostName(e: Entry)
    requires e == Host
    ensures e.0 == Encode(Scalar("device", "host"))
    ensures '/' !in e.0
  {
    DeviceNamesPlain();
    DeviceNamesUntagged();
    EncodeUntagged(Scalar("device", "host"));
  }

  lemma HostReads(e: Entry, f: (FieldRef, string))
    requires e == Host && f == HostRef
    ensures Reads(e, f)
  {
    HostName(e);
    DeviceNamesPlain();
    NameReads(e, Scalar("device", "host"));
    assert (RefOf(Scalar("device", "host")), e.1) == f;
  }

  lemma DevContainerName(e: Entry)
    requires e == DevContainer
    ensures e.0 == Encode(Scalar("device", "container"))
    ensures '/' !in e.0
  {
    DeviceNamesPlain();
    DeviceNamesUntagged();
    EncodeUntagged(Scalar("device", "container"));
  }

  lemma DevContainerReads(e: Entry, f: (FieldRef, string))
    requires e == DevContainer && f == DevContainerRef
    ensures Reads(e, f)
  {
    DevContainerName(e);
    DeviceNamesPlain();
    NameReads(e, Scalar("device", "container"));
    assert (RefOf(Scalar("device", "container")), e.1) == f;
  }

  lemma DummyName(e: Entry)
    requires e == Dummy
    ensures e.0 == Encode(Scalar("cap-add", "dummy"))
    ensures '/' !in e.0
  {
    CapNamesPlain();
    CapNamesUntagged();
    EncodeUntagged(Scalar("cap-add", "dummy"));
  }

  lemma DummyReads(e: Entry, f: (FieldRef, string))
    requires e == Dummy && f == DummyRef
    ensures Reads(e, f)
  {
    DummyName(e);
    CapNamesPlain();
    NameReads(e, Scalar("cap-add", "dummy"));
    assert (RefOf(Scalar("cap-add", "dummy")), e.1) == f;
  }

  lemma BindName(e: Entry)
    requires e == Bind
    ensures e.0 == Encode(Item("cap-add", "options", 0))
    ensures '/' !in e.0
  {
    CapNamesPlain();
    CapNamesUntagged();
    EncodeUntagged(Item("cap-add", "options", 0));
  }

  lemma BindReads(e: Entry, f: (FieldRef, string))
    requires e == Bind && f == BindRef
    ensures Reads(e, f)
  {
    BindName(e);
    CapNamesPlain();
    NameReads(e, Item("cap-add", "options", 0));
    assert (RefOf(Item("cap-add", "options", 0)), e.1) == f;
  }

  lemma SyslogName(e: Entry)
    requires e == Syslog
    ensures e.0 == Encode(Item("cap-add", "options", 1))
    ensures '/' !in e.0
  {
    CapNamesPlain();
    CapNamesUntagged();
    EncodeUntagged(Item("cap-add", "options", 1));
  }

  lemma SyslogReads(e: Entry, f: (FieldRef, string))
    requires e == Syslog && f == SyslogRef
    ensures Reads(e, f)
  {
    SyslogName(e);
    CapNamesPlain();
    NameReads(e, Item("cap-add", "options", 1));
    assert (RefOf(Item("cap-add", "options", 1)), e.1) == f;
  }

  lemma SyslogFirstName(e: Entry)
    requires e == ("cap-add.options[0]", SyslogCap)
    ensures e.0 == Encode(Item("cap-add", "options", 0))
    ensures '/' !in e.0
  {
    CapNamesPlain();
    CapNamesUntagged();
    EncodeUntagged(Item("cap-add", "options", 0));
  }

  lemma SyslogFirstReads(e: Entry, f: (FieldRef, string))
    requires e == ("cap-add.options[0]", SyslogCap) && f == SyslogFirstRef
    ensures Reads(e, f)
  {
    SyslogFirstName(e);
    CapNamesPlain();
    NameReads(e, Item("cap-add", "options", 0));
    assert (RefOf(Item("cap-add", "options", 0)), e.1) == f;
  }

  // Each case is proved in three steps: the decoded entries fed from the start
  // and closed give the expected result (`...Fed`); the form data reads as those
  // decoded entries (`...Parse`); the test object gives that form data.

  const HostRec: Record := [("host", Str(Dev))]
  const DeviceRec: Record := [("host", Str(Dev)), ("container", Str(Dev))]
  const DummyRec: Record := [("dummy", Str("dummy"))]
  const BindRec: Record := [("options", List([BindCap]))]
  const SyslogRec: Record := [("options", List([SyslogCap]))]
  const BothRec: Record := [("options", List([BindCap, SyslogCap]))]

  /** The state after the host entry. */
  lemma HostFed(fs: seq<(FieldRef, string)>) returns (s1: ParserState)
    requires |fs| == 1 && fs[0] == HostRef
    ensures s1 == Start.(prevOption := Some("device"), params := HostRec, prevField := Some("host"))
    ensures Feed(Start, fs) == s1
  {
    FreshScalarFed(Start, HostRef.0, Dev);
    s1 := Start.(prevOption := Some("device"), params := HostRec, prevField := Some("host"));
  }

  /** The state after the first `options` item. */
  lemma BindFed(fs: seq<(FieldRef, string)>) returns (s1: ParserState)
    requires |fs| == 1 && fs[0] == BindRef
    ensures s1 == Start.(prevOption := Some("cap-add"), arrayBuf := [BindCap], prevField := Some("options"))
    ensures Feed(Start, fs) == s1
  {
    ItemAppends(Start, "cap-add", "options", BindCap);
    s1 := Start.(prevOption := Some("cap-add"), arrayBuf := [BindCap], prevField := Some("options"));
  }

  /** Closing a state whose only pending content is the array `options` in a fresh record. */
  lemma CloseOptions(st: ParserState, vs: seq<string>) returns (c: ParserState)
    requires st.prevOption == Some("cap-add") && st.prevField == Some("options")
    requires st.params == [] && st.arrayBuf == vs && vs != [] && st.pairBuf == []
    ensures c == Close(st)
    ensures c == st.(results := Push(st.results, "cap-add", [("options", List(vs))]), arrayBuf := [])
  {
    FlushArrayFresh(st);
    CloseFed(st);
    c := Close(st);
  }

  /** Closing a state without pending buffers, whose option is new: the option is appended with this one record. */
  lemma CloseFresh(st: ParserState, k: string)
    requires st.arrayBuf == [] && st.pairBuf == [] && st.prevOption == Some(k) && k !in Keys(st.results)
    ensures Close(st).results == st.results + [(k, [st.params])]
  {
    CloseFed(st);
    PushFresh(st.results, k, st.params);
  }

  /** Closing a state without pending buffers, whose option is the first one: the record joins its list. */
  lemma CloseFirst(st: ParserState, k: string)
    requires st.arrayBuf == [] && st.pairBuf == [] && st.prevOption == Some(k)
    requires |st.results| > 0 && st.results[0].0 == k
    ensures Close(st).results == [(k, st.results[0].1 + [st.params])] + st.results[1..]
  {
    CloseFed(st);
    PushFirst(st.results, k, st.params);
  }

  lemma DeviceHostClosed(s1: ParserState)
    requires s1 == Start.(prevOption := Some("device"), params := HostRec, prevField := Some("host"))
    ensures Close(s1).results == [("device", [HostRec])]
  {
    CloseFresh(s1, "device");
  }

  lemma DeviceHostFed(fs: seq<(FieldRef, string)>)
    requires |fs| == 1 && fs[0] == HostRef
    ensures Close(Feed(Start, fs)).results == [("device", [HostRec])]
  {
    var s1 := HostFed(fs);
    DeviceHostClosed(s1);
  }

  /** The state after both device fields. */
  lemma DeviceFed(fs: seq<(FieldRef, string)>) returns (s2: ParserState)
    requires |fs| == 2 && fs[0] == HostRef && fs[1] == DevContainerRef
    ensures s2 == Start.(prevOption := Some("device"), params := DeviceRec, prevField := Some("container"))
    ensures Feed(Start, fs) == s2
  {
    var s1 := HostFed(fs[..1]);
    FreshScalarFed(s1, DevContainerRef.0, Dev);
    s2 := Start.(prevOption := Some("device"), params := DeviceRec, prevField := Some("container"));
  }

  lemma DeviceHostContainerClosed(s2: ParserState)
    requires s2 == Start.(prevOption := Some("device"), params := DeviceRec, prevField := Some("container"))
    ensures Close(s2).results == [("device", [DeviceRec])]
  {
    CloseFresh(s2, "device");
  }

  lemma DeviceHostContainerFed(fs: seq<(FieldRef, string)>)
    requires |fs| == 2 && fs[0] == HostRef && fs[1] == DevContainerRef
    ensures Close(Feed(Start, fs)).results == [("device", [DeviceRec])]
  {
    var s2 := DeviceFed(fs);
    DeviceHostContainerClosed(s2);
  }

  /** The device record closed by the first `cap-add` entry. */
  lemma DeviceClosed(s2: ParserState) returns (c: ParserState)
    requires s2 == Start.(prevOption := Some("device"), params := DeviceRec, prevField := Some("container"))
    ensures c == Close(s2).(prevOption := Some("cap-add"))
    ensures c == Start.(results := [("device", [DeviceRec])], prevOption := Some("cap-add"), prevField := Some("container"))
  {
    CloseFresh(s2, "device");
    c := Close(s2).(prevOption := Some("cap-add"));
  }

  /** The `dummy` field opens the `cap-add` record. */
  lemma DummyAfterDevice(c: ParserState) returns (s3: ParserState)
    requires c == Start.(results := [("device", [DeviceRec])], prevOption := Some("cap-add"), prevField := Some("container"))
    ensures s3 == c.(params := DummyRec, prevField := Some("dummy"))
    ensures Accept(c, DummyRef.0, DummyRef.1) == s3
  {
    FreshScalarFed(c, DummyRef.0, DummyRef.1);
    s3 := c.(params := DummyRec, prevField := Some("dummy"));
  }

  /** The state after the device fields and the `cap-add` field. */
  lemma TwoOptionsState(fs: seq<(FieldRef, string)>) returns (s3: ParserState)
    requires |fs| == 3 && fs[0] == HostRef && fs[1] == DevContainerRef && fs[2] == DummyRef
    ensures s3 == Start.(results := [("device", [DeviceRec])], prevOption := Some("cap-add"), params := DummyRec, prevField := Some("dummy"))
    ensures Feed(Start, fs) == s3
  {
    var s2 := DeviceFed(fs[..2]);
    OptionChangeFed(s2, DummyRef.0, DummyRef.1);
    var c := DeviceClosed(s2);
    s3 := DummyAfterDevice(c);
  }

  lemma TwoOptionsClosed(s3: ParserState)
    requires s3 == Start.(results := [("device", [DeviceRec])], prevOption := Some("cap-add"), params := DummyRec, prevField := Some("dummy"))
    ensures Close(s3).results == [("device", [DeviceRec]), ("cap-add", [DummyRec])]
  {
    CloseFresh(s3, "cap-add");
  }

  lemma TwoOptionsFed(fs: seq<(FieldRef, string)>)
    requires |fs| == 3 && fs[0] == HostRef && fs[1] == DevContainerRef && fs[2] == DummyRef
    ensures Close(Feed(Start, fs)).results == [("device", [DeviceRec]), ("cap-add", [DummyRec])]
  {
    var s3 := TwoOptionsState(fs);
    TwoOptionsClosed(s3);
  }

  lemma SingleItemClosed(s1: ParserState)
    requires s1 == Start.(prevOption := Some("cap-add"), arrayBuf := [BindCap], prevField := Some("options"))
    ensures Close(s1).results == [("cap-add", [BindRec])]
  {
    var c := CloseOptions(s1, [BindCap]);
    PushFresh([], "cap-add", BindRec);
  }

  lemma SingleItemFed(fs: seq<(FieldRef, string)>)
    requires |fs| == 1 && fs[0] == BindRef
    ensures Close(Feed(Start, fs)).results == [("cap-add", [BindRec])]
  {
    var s1 := BindFed(fs);
    SingleItemClosed(s1);
  }

  /** The state after the item and the scalar. */
  lemma ItemThenScalarState(fs: seq<(FieldRef, string)>) returns (s2: ParserState)
    requires |fs| == 2 && fs[0] == BindRef && fs[1] == DummyRef
    ensures s2 == Start.(prevOption := Some("cap-add"), params := BindRec + DummyRec, prevField := Some("dummy"))
    ensures Feed(Start, fs) == s2
  {
    var s1 := BindFed(fs[..1]);
    FlushArrayFresh(s1);
    FreshScalarFed(s1, DummyRef.0, DummyRef.1);
    s2 := Start.(prevOption := Some("cap-add"), params := BindRec + DummyRec, prevField := Some("dummy"));
  }

  lemma ItemThenScalarClosed(s2: ParserState)
    requires s2 == Start.(prevOption := Some("cap-add"), params := BindRec + DummyRec, prevField := Some("dummy"))
    ensures Close(s2).results == [("cap-add", [BindRec + DummyRec])]
  {
    CloseFresh(s2, "cap-add");
  }

  lemma ItemThenScalarFed(fs: seq<(FieldRef, string)>)
    requires |fs| == 2 && fs[0] == BindRef && fs[1] == DummyRef
    ensures Close(Feed(Start, fs)).results == [("cap-add", [BindRec + DummyRec])]
  {
    var s2 := ItemThenScalarState(fs);
    ItemThenScalarClosed(s2);
  }

  /** The state after the items 0 and 1. */
  lemma BothFed(fs: seq<(FieldRef, string)>) returns (s2: ParserState)
    requires |fs| == 2 && fs[0] == BindRef && fs[1] == SyslogRef
    ensures s2 == Start.(prevOption := Some("cap-add"), arrayBuf := [BindCap, SyslogCap], prevField := Some("options"))
    ensures Feed(Start, fs) == s2
  {
    var s1 := BindFed(fs[..1]);
    ItemAppends(s1, "cap-add", "options", SyslogCap);
    s2 := Start.(prevOption := Some("cap-add"), arrayBuf := [BindCap, SyslogCap], prevField := Some("options"));
  }

  lemma TwoItemsClosed(s2: ParserState)
    requires s2 == Start.(prevOption := Some("cap-add"), arrayBuf := [BindCap, SyslogCap], prevField := Some("options"))
    ensures Close(s2).results == [("cap-add", [BothRec])]
  {
    var c := CloseOptions(s2, [BindCap, SyslogCap]);
    PushFresh([], "cap-add", BothRec);
  }

  lemma TwoItemsFed(fs: seq<(FieldRef, string)>)
    requires |fs| == 2 && fs[0] == BindRef && fs[1] == SyslogRef
    ensures Close(Feed(Start, fs)).results == [("cap-add", [BothRec])]
  {
    var s2 := BothFed(fs);
    TwoItemsClosed(s2);
  }

  /** The state after both items and the scalar. */
  lemma TwoItemsThenScalarState(fs: seq<(FieldRef, string)>) returns (s3: ParserState)
    requires |fs| == 3 && fs[0] == BindRef && fs[1] == SyslogRef && fs[2] == DummyRef
    ensures s3 == Start.(prevOption := Some("cap-add"), params := BothRec + DummyRec, prevField := Some("dummy"))
    ensures Feed(Start, fs) == s3
  {
    var s2 := BothFed(fs[..2]);
    FlushArrayFresh(s2);
    FreshScalarFed(s2, DummyRef.0, DummyRef.1);
    s3 := Start.(prevOption := Some("cap-add"), params := BothRec + DummyRec, prevField := Some("dummy"));
  }

  lemma TwoItemsThenScalarClosed(s3: ParserState)
    requires s3 == Start.(prevOption := Some("cap-add"), params := BothRec + DummyRec, prevField := Some("dummy"))
    ensures Close(s3).results == [("cap-add", [BothRec + DummyRec])]
  {
    CloseFresh(s3, "cap-add");
  }

  lemma TwoItemsThenScalarFed(fs: seq<(FieldRef, string)>)
    requires |fs| == 3 && fs[0] == BindRef && fs[1] == SyslogRef && fs[2] == DummyRef
    ensures Close(Feed(Start, fs)).results == [("cap-add", [BothRec + DummyRec])]
  {
    var s3 := TwoItemsThenScalarState(fs);
    TwoItemsThenScalarClosed(s3);
  }

  /** The state after the index 0 came twice: the first record closed, the second array started. */
  lemma RestartFed(fs: seq<(FieldRef, string)>) returns (s2: ParserState)
    requires |fs| == 2 && fs[0] == BindRef && fs[1] == SyslogFirstRef
    ensures s2 == Start.(results := [("cap-add", [BindRec])], prevOption := Some("cap-add"), arrayBuf := [SyslogCap], prevField := Some("options"))
    ensures Feed(Start, fs) == s2
  {
    var s1 := BindFed(fs[..1]);
    ItemRestartFed(s1, "cap-add", "options", 0, SyslogCap);
    var c := CloseOptions(s1, [BindCap]);
    PushFresh([], "cap-add", BindRec);
    s2 := Start.(results := [("cap-add", [BindRec])], prevOption := Some("cap-add"), arrayBuf := [SyslogCap], prevField := Some("options"));
  }

  lemma RepeatedItemClosed(s2: ParserState)
    requires s2 == Start.(results := [("cap-add", [BindRec])], prevOption := Some("cap-add"), arrayBuf := [SyslogCap], prevField := Some("options"))
    ensures Close(s2).results == [("cap-add", [BindRec, SyslogRec])]
  {
    var c := CloseOptions(s2, [SyslogCap]);
    PushFirst(s2.results, "cap-add", SyslogRec);
    assert [BindRec] + [SyslogRec] == [BindRec, SyslogRec];
    assert c == Close(s2);
  }

  lemma RepeatedItemFed(fs: seq<(FieldRef, string)>)
    requires |fs| == 2 && fs[0] == BindRef && fs[1] == SyslogFirstRef
    ensures Close(Feed(Start, fs)).results == [("cap-add", [BindRec, SyslogRec])]
  {
    var s2 := RestartFed(fs);
    RepeatedItemClosed(s2);
  }

  /** The state after the repeated item and the scalar. */
  lemma RepeatedItemThenScalarState(fs: seq<(FieldRef, string)>) returns (s3: ParserState)
    requires |fs| == 3 && fs[0] == BindRef && fs[1] == SyslogFirstRef && fs[2] == DummyRef
    ensures s3 == Start.(results := [("cap-add", [BindRec])], prevOption := Some("cap-add"), params := SyslogRec + DummyRec, prevField := Some("dummy"))
    ensures Feed(Start, fs) == s3
  {
    var s2 := RestartFed(fs[..2]);
    FlushArrayFresh(s2);
    FreshScalarFed(s2, DummyRef.0, DummyRef.1);
    s3 := s2.(params := SyslogRec + DummyRec, arrayBuf := [], prevField := Some("dummy"));
  }

  lemma RepeatedItemThenScalarClosed(s3: ParserState)
    requires s3 == Start.(results := [("cap-add", [BindRec])], prevOption := Some("cap-add"), params := SyslogRec + DummyRec, prevField := Some("dummy"))
    ensures Close(s3).results == [("cap-add", [BindRec, SyslogRec + DummyRec])]
  {
    CloseFirst(s3, "cap-add");
    assert [BindRec] + [SyslogRec + DummyRec] == [BindRec, SyslogRec + DummyRec];
  }

  lemma RepeatedItemThenScalarFed(fs: seq<(FieldRef, string)>)
    requires |fs| == 3 && fs[0] == BindRef && fs[1] == SyslogFirstRef && fs[2] == DummyRef
    ensures Close(Feed(Start, fs)).results == [("cap-add", [BindRec, SyslogRec + DummyRec])]
  {
    var s3 := RepeatedItemThenScalarState(fs);
    RepeatedItemThenScalarClosed(s3);
  }

  /** The state after the item and the scalar of the other option. */
  lemma ArrayThenOtherOptionState(fs: seq<(FieldRef, string)>) returns (s2: ParserState)
    requires |fs| == 2 && fs[0] == BindRef && fs[1] == HostRef
    ensures s2 == Start.(results := [("cap-add", [BindRec])], prevOption := Some("device"), params := HostRec, prevField := Some("host"))
    ensures Feed(Start, fs) == s2
  {
    var s1 := BindFed(fs[..1]);
    OptionChangeFed(s1, HostRef.0, HostRef.1);
    var c := CloseOptions(s1, [BindCap]);
    PushFresh([], "cap-add", BindRec);
    var c' := c.(prevOption := Some("device"));
    FreshScalarFed(c', HostRef.0, HostRef.1);
    s2 := c'.(params := HostRec, prevField := Some("host"));
  }

  lemma ArrayThenOtherOptionClosed(s2: ParserState)
    requires s2 == Start.(results := [("cap-add", [BindRec])], prevOption := Some("device"), params := HostRec, prevField := Some("host"))
    ensures Close(s2).results == [("cap-add", [BindRec]), ("device", [HostRec])]
  {
    CloseFresh(s2, "device");
  }

  lemma ArrayThenOtherOptionFed(fs: seq<(FieldRef, string)>)
    requires |fs| == 2 && fs[0] == BindRef && fs[1] == HostRef
    ensures Close(Feed(Start, fs)).results == [("cap-add", [BindRec]), ("device", [HostRec])]
  {
    var s2 := ArrayThenOtherOptionState(fs);
    ArrayThenOtherOptionClosed(s2);
  }

  // ---------------------------------------------------------------------------
  // From the test objects

  /** The first tagged key strips to the item name with index 0. */
  lemma FirstTagStrips(e: (string, string))
    requires e == ("cap-add.options[0]/1", BindCap)
    ensures StripTag(e.0) == "cap-add.options[0]"
  {
    StripTagged("cap-add.options[0]", "1");
    assert e.0 == "cap-add.options[0]" + "/" + "1";
  }

  /** So does the second. */
  lemma SecondTagStrips(e: (string, string))
    requires e == ("cap-add.options[0]/2", SyslogCap)
    ensures StripTag(e.0) == "cap-add.options[0]"
  {
    StripTagged("cap-add.options[0]", "2");
    assert e.0 == "cap-add.options[0]" + "/" + "2";
  }

  /** The two tagged keys give the same field name twice. */
  lemma TaggedItems(obj: seq<(string, string)>)
    requires |obj| >= 2 && obj[0] == ("cap-add.options[0]/1", BindCap) && obj[1] == ("cap-add.options[0]/2", SyslogCap)
    requires forall i :: 2 <= i < |obj| ==> '/' !in obj[i].0
    ensures GenerateFormData(obj)[0] == Bind && GenerateFormData(obj)[1] == ("cap-add.options[0]", SyslogCap)
    ensures forall i :: 2 <= i < |obj| ==> GenerateFormData(obj)[i] == obj[i]
  {
    FirstTagStrips(obj[0]);
    SecondTagStrips(obj[1]);
  }

  lemma DeviceHostParse(es: seq<Entry>, fs: seq<(FieldRef, string)>)
    requires |es| == 1 && es[0] == Host
    requires |fs| == 1 && fs[0] == HostRef
    ensures AllAdmissible(es)
    ensures Parse(es) == [("device", [HostRec])]
  {
    HostReads(es[0], fs[0]);
    ParseFed1(es, fs);
    DeviceHostFed(fs);
  }

  lemma DeviceHostForm(obj: seq<(string, string)>)
    requires |obj| == 1 && obj[0] == Host
    ensures var es := GenerateFormData(obj); |es| == 1 && es[0] == Host
  {
    HostName(obj[0]);
    UntaggedFormData(obj);
  }

  /** `{"device.host"}`: one device record holding the host. */
  lemma DeviceHost(obj: seq<(string, string)>)
    requires |obj| == 1 && obj[0] == Host
    ensures AllAdmissible(GenerateFormData(obj))
    ensures Parse(GenerateFormData(obj)) == [("device", [HostRec])]
  {
    DeviceHostForm(obj);
    DeviceHostParse(GenerateFormData(obj), [HostRef]);
  }

  lemma DeviceHostContainerParse(es: seq<Entry>, fs: seq<(FieldRef, string)>)
    requires |es| == 2 && es[0] == Host && es[1] == DevContainer
    requires |fs| == 2 && fs[0] == HostRef && fs[1] == DevContainerRef
    ensures AllAdmissible(es)
    ensures Parse(es) == [("device", [DeviceRec])]
  {
    HostReads(es[0], fs[0]);
    DevContainerReads(es[1], fs[1]);
    ParseFed2(es, fs);
    DeviceHostContainerFed(fs);
  }

  lemma DeviceHostContainerForm(obj: seq<(string, string)>)
    requires |obj| == 2 && obj[0] == Host && obj[1] == DevContainer
    ensures var es := GenerateFormData(obj); |es| == 2 && es[0] == Host && es[1] == DevContainer
  {
    HostName(obj[0]);
    DevContainerName(obj[1]);
    UntaggedFormData(obj);
  }

  /** `{"device.host", "device.container"}`: one device record holding both fields, in order. */
  lemma DeviceHostContainer(obj: seq<(string, string)>)
    requires |obj| == 2 && obj[0] == Host && obj[1] == DevContainer
    ensures AllAdmissible(GenerateFormData(obj))
    ensures Parse(GenerateFormData(obj)) == [("device", [DeviceRec])]
  {
    DeviceHostContainerForm(obj);
    DeviceHostContainerParse(GenerateFormData(obj), [HostRef, DevContainerRef]);
  }

  lemma TwoOptionsParse(es: seq<Entry>, fs: seq<(FieldRef, string)>)
    requires |es| == 3 && es[0] == Host && es[1] == DevContainer && es[2] == Dummy
    requires |fs| == 3 && fs[0] == HostRef && fs[1] == DevContainerRef && fs[2] == DummyRef
    ensures AllAdmissible(es)
    ensures Parse(es) == [("device", [DeviceRec]), ("cap-add", [DummyRec])]
  {
    HostReads(es[0], fs[0]);
    DevContainerReads(es[1], fs[1]);
    DummyReads(es[2], fs[2]);
    ParseFed3(es, fs);
    TwoOptionsFed(fs);
  }

  lemma TwoOptionsForm(obj: seq<(string, string)>)
    requires |obj| == 3 && obj[0] == Host && obj[1] == DevContainer && obj[2] == Dummy
    ensures var es := GenerateFormData(obj); |es| == 3 && es[0] == Host && es[1] == DevContainer && es[2] == Dummy
  {
    HostName(obj[0]);
    DevContainerName(obj[1]);
    DummyName(obj[2]);
    UntaggedFormData(obj);
  }

  /** A further option after the device fields: one record each, options in order of appearance. */
  lemma TwoOptions(obj: seq<(string, string)>)
    requires |obj| == 3 && obj[0] == Host && obj[1] == DevContainer && obj[2] == Dummy
    ensures AllAdmissible(GenerateFormData(obj))
    ensures Parse(GenerateFormData(obj)) == [("device", [DeviceRec]), ("cap-add", [DummyRec])]
  {
    TwoOptionsForm(obj);
    TwoOptionsParse(GenerateFormData(obj), [HostRef, DevContainerRef, DummyRef]);
  }

  lemma SingleItemParse(es: seq<Entry>, fs: seq<(FieldRef, string)>)
    requires |es| == 1 && es[0] == Bind
    requires |fs| == 1 && fs[0] == BindRef
    ensures AllAdmissible(es)
    ensures Parse(es) == [("cap-add", [BindRec])]
  {
    BindReads(es[0], fs[0]);
    ParseFed1(es, fs);
    SingleItemFed(fs);
  }

  lemma SingleItemForm(obj: seq<(string, string)>)
    requires |obj| == 1 && obj[0] == Bind
    ensures var es := GenerateFormData(obj); |es| == 1 && es[0] == Bind
  {
    BindName(obj[0]);
    UntaggedFormData(obj);
  }

  /** `{"cap-add.options[0]"}`: one record whose `options` is a one-item array. */
  lemma SingleItem(obj: seq<(string, string)>)
    requires |obj| == 1 && obj[0] == Bind
    ensures AllAdmissible(GenerateFormData(obj))
    ensures Parse(GenerateFormData(obj)) == [("cap-add", [BindRec])]
  {
    SingleItemForm(obj);
    SingleItemParse(GenerateFormData(obj), [BindRef]);
  }

  lemma ItemThenScalarParse(es: seq<Entry>, fs: seq<(FieldRef, string)>)
    requires |es| == 2 && es[0] == Bind && es[1] == Dummy
    requires |fs| == 2 && fs[0] == BindRef && fs[1] == DummyRef
    ensures AllAdmissible(es)
    ensures Parse(es) == [("cap-add", [BindRec + DummyRec])]
  {
    BindReads(es[0], fs[0]);
    DummyReads(es[1], fs[1]);
    ParseFed2(es, fs);
    ItemThenScalarFed(fs);
  }

  lemma ItemThenScalarForm(obj: seq<(string, string)>)
    requires |obj| == 2 && obj[0] == Bind && obj[1] == Dummy
    ensures var es := GenerateFormData(obj); |es| == 2 && es[0] == Bind && es[1] == Dummy
  {
    BindName(obj[0]);
    DummyName(obj[1]);
    UntaggedFormData(obj);
  }

  /** An array then a scalar of the same option: one record, the array first. */
  lemma ItemThenScalar(obj: seq<(string, string)>)
    requires |obj| == 2 && obj[0] == Bind && obj[1] == Dummy
    ensures AllAdmissible(GenerateFormData(obj))
    ensures Parse(GenerateFormData(obj)) == [("cap-add", [BindRec + DummyRec])]
  {
    ItemThenScalarForm(obj);
    ItemThenScalarParse(GenerateFormData(obj), [BindRef, DummyRef]);
  }

  lemma TwoItemsParse(es: seq<Entry>, fs: seq<(FieldRef, string)>)
    requires |es| == 2 && es[0] == Bind && es[1] == Syslog
    requires |fs| == 2 && fs[0] == BindRef && fs[1] == SyslogRef
    ensures AllAdmissible(es)
    ensures Parse(es) == [("cap-add", [BothRec])]
  {
    BindReads(es[0], fs[0]);
    SyslogReads(es[1], fs[1]);
    ParseFed2(es, fs);
    TwoItemsFed(fs);
  }

  lemma TwoItemsForm(obj: seq<(string, string)>)
    requires |obj| == 2 && obj[0] == Bind && obj[1] == Syslog
    ensures var es := GenerateFormData(obj); |es| == 2 && es[0] == Bind && es[1] == Syslog
  {
    BindName(obj[0]);
    SyslogName(obj[1]);
    UntaggedFormData(obj);
  }

  /** Consecutive indices 0 and 1: one record whose array holds both values in order. */
  lemma TwoItems(obj: seq<(string, string)>)
    requires |obj| == 2 && obj[0] == Bind && obj[1] == Syslog
    ensures AllAdmissible(GenerateFormData(obj))
    ensures Parse(GenerateFormData(obj)) == [("cap-add", [BothRec])]
  {
    TwoItemsForm(obj);
    TwoItemsParse(GenerateFormData(obj), [BindRef, SyslogRef]);
  }

  lemma TwoItemsThenScalarParse(es: seq<Entry>, fs: seq<(FieldRef, string)>)
    requires |es| == 3 && es[0] == Bind && es[1] == Syslog && es[2] == Dummy
    requires |fs| == 3 && fs[0] == BindRef && fs[1] == SyslogRef && fs[2] == DummyRef
    ensures AllAdmissible(es)
    ensures Parse(es) == [("cap-add", [BothRec + DummyRec])]
  {
    BindReads(es[0], fs[0]);
    SyslogReads(es[1], fs[1]);
    DummyReads(es[2], fs[2]);
    ParseFed3(es, fs);
    TwoItemsThenScalarFed(fs);
  }

  lemma TwoItemsThenScalarForm(obj: seq<(string, string)>)
    requires |obj| == 3 && obj[0] == Bind && obj[1] == Syslog && obj[2] == Dummy
    ensures var es := GenerateFormData(obj); |es| == 3 && es[0] == Bind && es[1] == Syslog && es[2] == Dummy
  {
    BindName(obj[0]);
    SyslogName(obj[1]);
    DummyName(obj[2]);
    UntaggedFormData(obj);
  }

  /** Two items then a scalar: one record holding the two-item array and the scalar. */
  lemma TwoItemsThenScalar(obj: seq<(string, string)>)
    requires |obj| == 3 && obj[0] == Bind && obj[1] == Syslog && obj[2] == Dummy
    ensures AllAdmissible(GenerateFormData(obj))
    ensures Parse(GenerateFormData(obj)) == [("cap-add", [BothRec + DummyRec])]
  {
    TwoItemsThenScalarForm(obj);
    TwoItemsThenScalarParse(GenerateFormData(obj), [BindRef, SyslogRef, DummyRef]);
  }

  lemma RepeatedItemParse(es: seq<Entry>, fs: seq<(FieldRef, string)>)
    requires |es| == 2 && es[0] == Bind && es[1] == ("cap-add.options[0]", SyslogCap)
    requires |fs| == 2 && fs[0] == BindRef && fs[1] == SyslogFirstRef
    ensures AllAdmissible(es)
    ensures Parse(es) == [("cap-add", [BindRec, SyslogRec])]
  {
    BindReads(es[0], fs[0]);
    SyslogFirstReads(es[1], fs[1]);
    ParseFed2(es, fs);
    RepeatedItemFed(fs);
  }

  lemma RepeatedItemForm(obj: seq<(string, string)>)
    requires |obj| == 2 && obj[0] == ("cap-add.options[0]/1", BindCap) && obj[1] == ("cap-add.options[0]/2", SyslogCap)
    ensures var es := GenerateFormData(obj); |es| == 2 && es[0] == Bind && es[1] == ("cap-add.options[0]", SyslogCap)
  {
    TaggedItems(obj);
  }

  /** The index 0 twice (told apart by tags): two records of one item each. */
  lemma RepeatedItem(obj: seq<(string, string)>)
    requires |obj| == 2 && obj[0] == ("cap-add.options[0]/1", BindCap) && obj[1] == ("cap-add.options[0]/2", SyslogCap)
    ensures AllAdmissible(GenerateFormData(obj))
    ensures Parse(GenerateFormData(obj)) == [("cap-add", [BindRec, SyslogRec])]
  {
    RepeatedItemForm(obj);
    RepeatedItemParse(GenerateFormData(obj), [BindRef, SyslogFirstRef]);
  }

  lemma RepeatedItemThenScalarParse(es: seq<Entry>, fs: seq<(FieldRef, string)>)
    requires |es| == 3 && es[0] == Bind && es[1] == ("cap-add.options[0]", SyslogCap) && es[2] == Dummy
    requires |fs| == 3 && fs[0] == BindRef && fs[1] == SyslogFirstRef && fs[2] == DummyRef
    ensures AllAdmissible(es)
    ensures Parse(es) == [("cap-add", [BindRec, SyslogRec + DummyRec])]
  {
    BindReads(es[0], fs[0]);
    SyslogFirstReads(es[1], fs[1]);
    DummyReads(es[2], fs[2]);
    ParseFed3(es, fs);
    RepeatedItemThenScalarFed(fs);
  }

  lemma RepeatedItemThenScalarForm(obj: seq<(string, string)>)
    requires |obj| == 3 && obj[0] == ("cap-add.options[0]/1", BindCap) && obj[1] == ("cap-add.options[0]/2", SyslogCap) && obj[2] == Dummy
    ensures var es := GenerateFormData(obj); |es| == 3 && es[0] == Bind && es[1] == ("cap-add.options[0]", SyslogCap) && es[2] == Dummy
  {
    DummyName(obj[2]);
    TaggedItems(obj);
  }

  /** The index 0 twice, then a scalar: the scalar joins the second record. */
  lemma RepeatedItemThenScalar(obj: seq<(string, string)>)
    requires |obj| == 3 && obj[0] == ("cap-add.options[0]/1", BindCap) && obj[1] == ("cap-add.options[0]/2", SyslogCap) && obj[2] == Dummy
    ensures AllAdmissible(GenerateFormData(obj))
    ensures Parse(GenerateFormData(obj)) == [("cap-add", [BindRec, SyslogRec + DummyRec])]
  {
    RepeatedItemThenScalarForm(obj);
    var es := GenerateFormData(obj);
    var fs := [BindRef, SyslogFirstRef, DummyRef];
    assert |fs| == 3 && fs[0] == BindRef && fs[1] == SyslogFirstRef && fs[2] == DummyRef;
    RepeatedItemThenScalarParse(es, fs);
  }

  lemma ArrayThenOtherOptionParse(es: seq<Entry>, fs: seq<(FieldRef, string)>)
    requires |es| == 2 && es[0] == Bind && es[1] == Host
    requires |fs| == 2 && fs[0] == BindRef && fs[1] == HostRef
    ensures AllAdmissible(es)
    ensures Parse(es) == [("cap-add", [BindRec]), ("device", [HostRec])]
  {
    BindReads(es[0], fs[0]);
    HostReads(es[1], fs[1]);
    ParseFed2(es, fs);
    ArrayThenOtherOptionFed(fs);
  }

  lemma ArrayThenOtherOptionForm(obj: seq<(string, string)>)
    requires |obj| == 2 && obj[0] == Bind && obj[1] == Host
    ensures var es := GenerateFormData(obj); |es| == 2 && es[0] == Bind && es[1] == Host
  {
    BindName(obj[0]);
    HostName(obj[1]);
    UntaggedFormData(obj);
  }

  /** An array of one option then a scalar of another: the array record is closed first. */
  lemma ArrayThenOtherOption(obj: seq<(string, string)>)
    requires |obj| == 2 && obj[0] == Bind && obj[1] == Host
    ensures AllAdmissible(GenerateFormData(obj))
    ensures Parse(GenerateFormData(obj)) == [("cap-add", [BindRec]), ("device", [HostRec])]
  {
    ArrayThenOtherOptionForm(obj);
    ArrayThenOtherOptionParse(GenerateFormData(obj), [BindRef, HostRef]);
  }
}
