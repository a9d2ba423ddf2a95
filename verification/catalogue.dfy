/**
 The schema catalogue of container options: for each option, the `podman run`
 argument it maps to, whether several instances are allowed, the formatters used
 for the two output modes, and its typed parameters.
 */
module Catalogue {
  import opened Wrappers
  import opened Assoc

  /** The five parameter types; each selects one field renderer. */
  datatype ParamType = PathType | StringType | SelectType | BooleanType | PairType

  /** The formatters an option can name; an absent formatter means `({ value }) => value`. */
  datatype FormatTag =
    | SepSpace          // Format.sepSpace
    | Mapping           // Format.mapping
    | PairList          // Format.pair
    | HostAndIp         // AddHost's inline `hostname:ip`
    | AutoUpdateLabel   // AutoUpdate's inline command-line label

  /** The choices of a `select`: a plain list, or values with display labels. */
  datatype SelectOptions = Choices(values: seq<string>) | Labelled(labels: Assoc<string>)

  datatype ParamDefault = NoDefault | DefaultChoice(choice: string) | DefaultChecked(checked: bool)

  /** A path/string hint, or the key and value hints of a pair. */
  datatype Placeholder = NoPlaceholder | Hint(text: string) | PairHint(keyHint: string, valueHint: string)

  datatype ParamDef = ParamDef(
    param: string,
    name: string,
    kind: ParamType,
    isArray: bool,
    isOptional: bool,
    default: ParamDefault,
    placeholder: Placeholder,
    options: Option<SelectOptions>)

  datatype OptionDef = OptionDef(
    arg: string,
    allowMultiple: bool,
    format: Option<FormatTag>,
    argFormat: Option<FormatTag>,
    params: seq<ParamDef>)

  /** No two parameters of the list are `pair`-typed. */
  predicate AtMostOnePair(ps: seq<ParamDef>)
  {
    forall i, j :: 0 <= i < j < |ps| ==> ps[i].kind != PairType || ps[j].kind != PairType
  }

  predicate SelectHasOptions(p: ParamDef)
  {
    p.kind == SelectType ==>
      match p.options
      case None => false
      case Some(Choices(vs)) => |vs| > 0
      case Some(Labelled(ls)) => |ls| > 0
  }

  /** Neither `.` nor a bracket: safe inside a field name. */
  predicate PlainName(s: string)
  {
    '.' !in s && '[' !in s && ']' !in s
  }

  /** The schema rules: at most one `pair` parameter, every `select` has options, names are field-name safe and unique. */
  predicate WellFormedOption(name: string, o: OptionDef)
  {
    && PlainName(name)
    && AtMostOnePair(o.params)
    && (forall i :: 0 <= i < |o.params| ==> SelectHasOptions(o.params[i]) && PlainName(o.params[i].param))
    && (forall i, j :: 0 <= i < j < |o.params| ==> o.params[i].param != o.params[j].param)
  }

  predicate WellFormed(c: Assoc<OptionDef>)
  {
    UniqueKeys(c) && forall i :: 0 <= i < |c| ==> WellFormedOption(c[i].0, c[i].1)
  }

  function Param(param: string, name: string, kind: ParamType): ParamDef
  {
    ParamDef(param, name, kind, false, false, NoDefault, NoPlaceholder, None)
  }

  const Capabilities: seq<string> := [
    "CAP_AUDIT_CONTROL", "CAP_AUDIT_READ", "CAP_AUDIT_WRITE", "CAP_BLOCK_SUSPEND",
    "CAP_BPF", "CAP_CHECKPOINT_RESTORE", "CAP_SYS_ADMIN", "CAP_CHOWN",
    "CAP_DAC_OVERRIDE", "CAP_DAC_READ_SEARCH", "CAP_FOWNER", "CAP_DAC_READ_SEARCH",
    "CAP_FSETID", "CAP_IPC_LOCK", "CAP_IPC_OWNER", "CAP_KILL",
    "CAP_LEASE", "CAP_LINUX_IMMUTABLE", "CAP_MAC_ADMIN", "CAP_MAC_OVERRIDE",
    "CAP_MKNOD", "CAP_NET_ADMIN", "CAP_NET_BIND_SERVICE", "CAP_NET_BROADCAST",
    "CAP_NET_RAW", "CAP_PERFMON", "CAP_SYS_ADMIN", "CAP_SETGID",
    "CAP_SETFCAP", "CAP_SETPCAP", "CAP_SETPCAP", "CAP_SETUID",
    "CAP_SYS_ADMIN", "CAP_BPF", "CAP_SYS_BOOT", "CAP_SYS_CHROOT",
    "CAP_SYS_MODULE", "CAP_SYS_NICE", "CAP_SYS_PACCT", "CAP_SYS_PTRACE",
    "CAP_SYS_RAWIO", "CAP_SYS_RESOURCE", "CAP_SYS_TIME", "CAP_SYS_TTY_CONFIG",
    "CAP_SYSLOG", "CAP_WAKE_ALARM"]

  const AddCapabilityOption: OptionDef :=
    OptionDef("cap-add", true, Some(SepSpace), None, [
      Param("values", "Capabilities", SelectType).(isArray := true, options := Some(Choices(Capabilities)))])

  const AddDeviceOption: OptionDef :=
    OptionDef("device", true, Some(Mapping), None, [
      Param("host", "Host device", PathType).(placeholder := Hint("/dev/device")),
      Param("container", "Container device", PathType).(placeholder := Hint("/dev/device"), isOptional := true),
      Param("permissions", "Permissions", SelectType).(isArray := true, isOptional := true,
        options := Some(Labelled([("r", "read"), ("w", "write"), ("m", "mknod")]))),
      Param("ifExists", "Only if device exists", BooleanType)])

  const AddHostOption: OptionDef :=
    OptionDef("add-host", true, Some(HostAndIp), None, [
      Param("hostname", "Hostname", StringType).(placeholder := Hint("example.com")),
      Param("ip", "IP Address", StringType).(placeholder := Hint("192.168.1.0"))])

  const AnnotationOption: OptionDef :=
    OptionDef("annotation", true, Some(PairList), None, [
      Param("values", "Annotations", PairType).(placeholder := PairHint("annotation", "value"), isArray := true)])

  const AutoUpdateOption: OptionDef :=
    OptionDef("label", false, None, Some(AutoUpdateLabel), [
      Param("value", "Value", SelectType).(options := Some(Choices(["registry", "local"])))])

  const CgroupsModeOption: OptionDef :=
    OptionDef("cgroups", false, None, None, [
      Param("value", "Mode", SelectType).(default := DefaultChoice("split"),
        options := Some(Choices(["enabled", "split", "no-conmon", "disabled"])))])

  const ContainerNameOption: OptionDef :=
    OptionDef("name", false, None, None, [
      Param("value", "Name", StringType).(placeholder := Hint("systemd-%N"))])

  /** Its argument goes before `run` on the command line. */
  const ContainersConfModuleOption: OptionDef :=
    OptionDef("module", true, None, None, [
      Param("value", "Path", PathType).(placeholder := Hint("containers.conf"))])

  /** No flag of its own: placed after the image. */
  const ExecOption: OptionDef :=
    OptionDef("exec", false, None, None, [
      Param("value", "Arguments", StringType).(placeholder := Hint("--option value"))])

  /** No flag of its own: placed at the end of the command. */
  const ImageOption: OptionDef :=
    OptionDef("image", false, None, None, [
      Param("value", "Name / FQIN", StringType).(placeholder := Hint("docker.io/library/nginx:latest"))])

  /** `options.container`. */
  const Container: Assoc<OptionDef> := [
    ("AddCapability", AddCapabilityOption),
    ("AddDevice", AddDeviceOption),
    ("AddHost", AddHostOption),
    ("Annotation", AnnotationOption),
    ("AutoUpdate", AutoUpdateOption),
    ("CgroupsMode", CgroupsModeOption),
    ("ContainerName", ContainerNameOption),
    ("ContainersConfModule", ContainersConfModuleOption),
    ("Exec", ExecOption),
    ("Image", ImageOption)
  ]

  /** The container catalogue obeys the schema rules. */
  lemma ContainerWellFormed()
    ensures WellFormed(Container)
  {
    ContainerKeysUnique();
    AddCapabilityWellFormed(AddCapabilityOption);
    AddDeviceWellFormed();
    AddHostWellFormed();
    AnnotationWellFormed(AnnotationOption);
    AutoUpdateWellFormed(AutoUpdateOption);
    CgroupsModeWellFormed(CgroupsModeOption);
    ContainerNameWellFormed(ContainerNameOption);
    ContainersConfModuleWellFormed(ContainersConfModuleOption);
    ExecWellFormed(ExecOption);
    ImageWellFormed(ImageOption);
    EntriesWellFormed();
  }

  lemma AddCapabilityWellFormed(o: OptionDef)
    requires o == AddCapabilityOption
    ensures WellFormedOption("AddCapability", o)
  {
    SingleParamWellFormed("AddCapability", o);
  }

  lemma AnnotationWellFormed(o: OptionDef)
    requires o == AnnotationOption
    ensures WellFormedOption("Annotation", o)
  {
    SingleParamWellFormed("Annotation", o);
  }

  lemma AutoUpdateWellFormed(o: OptionDef)
    requires o == AutoUpdateOption
    ensures WellFormedOption("AutoUpdate", o)
  {
    SingleParamWellFormed("AutoUpdate", o);
  }

  lemma CgroupsModeWellFormed(o: OptionDef)
    requires o == CgroupsModeOption
    ensures WellFormedOption("CgroupsMode", o)
  {
    SingleParamWellFormed("CgroupsMode", o);
  }

  lemma ContainerNameWellFormed(o: OptionDef)
    requires o == ContainerNameOption
    ensures WellFormedOption("ContainerName", o)
  {
    SingleParamWellFormed("ContainerName", o);
  }

  lemma ContainersConfModuleWellFormed(o: OptionDef)
    requires o == ContainersConfModuleOption
    ensures WellFormedOption("ContainersConfModule", o)
  {
    SingleParamWellFormed("ContainersConfModule", o);
  }

  lemma ExecWellFormed(o: OptionDef)
    requires o == ExecOption
    ensures WellFormedOption("Exec", o)
  {
    SingleParamWellFormed("Exec", o);
  }

  lemma ImageWellFormed(o: OptionDef)
    requires o == ImageOption
    ensures WellFormedOption("Image", o)
  {
    SingleParamWellFormed("Image", o);
  }

  lemma EntriesWellFormed()
    requires WellFormedOption("AddCapability", AddCapabilityOption)
    requires WellFormedOption("AddDevice", AddDeviceOption)
    requires WellFormedOption("AddHost", AddHostOption)
    requires WellFormedOption("Annotation", AnnotationOption)
    requires WellFormedOption("AutoUpdate", AutoUpdateOption)
    requires WellFormedOption("CgroupsMode", CgroupsModeOption)
    requires WellFormedOption("ContainerName", ContainerNameOption)
    requires WellFormedOption("ContainersConfModule", ContainersConfModuleOption)
    requires WellFormedOption("Exec", ExecOption)
    requires WellFormedOption("Image", ImageOption)
    ensures forall i :: 0 <= i < |Container| ==> WellFormedOption(Container[i].0, Container[i].1)
  {
    forall i | 0 <= i < |Container|
      ensures WellFormedOption(Container[i].0, Container[i].1)
    {
      assert Container[i] in Container;
    }
  }

  lemma ContainerKeysUnique()
    ensures UniqueKeys(Container)
  {
    assert Keys(Container) == ["AddCapability", "AddDevice", "AddHost", "Annotation", "AutoUpdate",
      "CgroupsMode", "ContainerName", "ContainersConfModule", "Exec", "Image"];
  }

  lemma SingleParamWellFormed(name: string, o: OptionDef)
    requires PlainName(name) && |o.params| == 1
    requires SelectHasOptions(o.params[0]) && PlainName(o.params[0].param)
    ensures WellFormedOption(name, o)
  {
  }

  lemma AddHostWellFormed()
    ensures WellFormedOption("AddHost", AddHostOption)
  {
    var ps := AddHostOption.params;
    assert ps[0].param == "hostname" && ps[1].param == "ip";
    assert PlainName(ps[0].param) && PlainName(ps[1].param);
  }

  lemma AddDeviceWellFormed()
    ensures WellFormedOption("AddDevice", AddDeviceOption)
  {
    var ps := AddDeviceOption.params;
    AddDeviceParams();
    assert AtMostOnePair(ps);
    assert forall i, j :: 0 <= i < j < |ps| ==> ps[i].param != ps[j].param;
  }

  lemma AddDeviceParams()
    ensures var ps := AddDeviceOption.params;
      && |ps| == 4
      && ps[0].param == "host" && ps[1].param == "container"
      && ps[2].param == "permissions" && ps[3].param == "ifExists"
      && forall i :: 0 <= i < |ps| ==> SelectHasOptions(ps[i]) && PlainName(ps[i].param) && ps[i].kind != PairType
  {
    var ps := AddDeviceOption.params;
    DeviceParamNamesPlain();
    assert SelectHasOptions(ps[2]);
  }

  lemma DeviceParamNamesPlain()
    ensures PlainName("host") && PlainName("container") && PlainName("permissions") && PlainName("ifExists")
  {
  }
}
