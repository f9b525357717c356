/** Reading resource quantities out of node and pod documents
    (utils/kube-gen.py lines 101-102 and 134). A quantity string loses a
    fixed number of trailing characters, one for cpu and two for memory,
    and the rest is read as a decimal integer; no unit is interpreted. */
module Quantity {
  import opened Wrappers
  import opened Doc
  import Text
  import opened ResourceLedger

  const CpuSuffix: nat := 1
  const MemorySuffix: nat := 2

  /** `int(s[:-n])`. */
  function ParseQuantity(s: string, n: nat): (r: Result<int>)
    requires n >= 1
    ensures r.Success? <==> Text.ParseInt(Text.DropSuffix(s, n)).Some?
    ensures r.Success? ==> r.value == Text.ParseInt(Text.DropSuffix(s, n)).value
    ensures r.Failure? ==> r.error == NotAnInteger(Text.DropSuffix(s, n))
  {
    var digits := Text.DropSuffix(s, n);
    Need(Text.ParseInt(digits), NotAnInteger(digits))
  }

  /** A number printed with any unit of the right length reads back as the
      number itself: the unit is dropped, never converted. */
  lemma QuantityRoundTrip(n: int, unit: string)
    requires |unit| >= 1
    ensures ParseQuantity(Text.IntToString(n) + unit, |unit|) == Success(n)
  {
    Text.DropSuffixAppend(Text.IntToString(n), unit);
    Text.ParseIntRoundTrip(n);
  }

  /** The string found at a path, which must be a YAML string (slicing
      anything else raises). */
  function TextAt(doc: Value, path: seq<Step>): (r: Result<string>)
    ensures r.Success? <==> Get(doc, path).Some? && Get(doc, path).value.Str?
    ensures r.Success? ==> Get(doc, path) == Some(Str(r.value))
    ensures r.Failure? ==> r.error == BadShape
  {
    match Get(doc, path)
    case Some(Str(s)) => Success(s)
    case _ => Failure(BadShape)
  }

  const RequestsPath: seq<Step> := [Key("spec"), Key("containers"), At(0), Key("resources"), Key("requests")]
  const CapacityPath: seq<Step> := [Key("status"), Key("capacity")]

  /** The mapping at `base` holds a cpu string and a memory string that,
      their unit characters dropped, are the decimal numbers of `x`. */
  predicate ReadsAs(doc: Value, base: seq<Step>, x: Res) {
    match (Get(doc, base + [Key("cpu")]), Get(doc, base + [Key("memory")]))
    case (Some(Str(c)), Some(Str(m))) =>
      Text.ParseInt(Text.DropSuffix(c, CpuSuffix)) == Some(x.cpu) &&
      Text.ParseInt(Text.DropSuffix(m, MemorySuffix)) == Some(x.mem)
    case _ => false
  }

  /** `(int(m['cpu'][:-1]), int(m['memory'][:-2]))` for the mapping at `base`,
      cpu read and parsed before memory. */
  function ReadPair(doc: Value, base: seq<Step>): (r: Result<Res>)
    ensures r.Success? ==> ReadsAs(doc, base, r.value)
    ensures forall x {:trigger ReadsAs(doc, base, x)} :: ReadsAs(doc, base, x) ==> r == Success(x)
    ensures r.Failure? ==> r.error == BadShape || r.error.NotAnInteger?
    ensures !TextAt(doc, base + [Key("cpu")]).Success? ==> r == Failure(BadShape)
  {
    var cpuText :- TextAt(doc, base + [Key("cpu")]);
    var cpu :- ParseQuantity(cpuText, CpuSuffix);
    var memText :- TextAt(doc, base + [Key("memory")]);
    var mem :- ParseQuantity(memText, MemorySuffix);
    Success(Res(cpu, mem))
  }

  /** A pod's request, from its first container. */
  function Request(pod: Value): (r: Result<Res>)
    ensures r.Success? ==> ReadsAs(pod, RequestsPath, r.value)
    ensures forall x {:trigger ReadsAs(pod, RequestsPath, x)} :: ReadsAs(pod, RequestsPath, x) ==> r == Success(x)
    ensures r.Failure? ==> r.error == BadShape || r.error.NotAnInteger?
  {
    ReadPair(pod, RequestsPath)
  }

  /** A node's capacity. */
  function Capacity(node: Value): (r: Result<Res>)
    ensures r.Success? ==> ReadsAs(node, CapacityPath, r.value)
    ensures forall x {:trigger ReadsAs(node, CapacityPath, x)} :: ReadsAs(node, CapacityPath, x) ==> r == Success(x)
    ensures r.Failure? ==> r.error == BadShape || r.error.NotAnInteger?
  {
    ReadPair(node, CapacityPath)
  }

  /** The pair read back from a document whose cpu string is a number and a
      one-character unit, and whose memory string a number and a
      two-character unit, is exactly those two numbers. */
  lemma ReadPairRoundTrip(doc: Value, base: seq<Step>, cpu: int, cpuUnit: string, mem: int, memUnit: string)
    requires |cpuUnit| == CpuSuffix && |memUnit| == MemorySuffix
    requires Get(doc, base + [Key("cpu")]) == Some(Str(Text.IntToString(cpu) + cpuUnit))
    requires Get(doc, base + [Key("memory")]) == Some(Str(Text.IntToString(mem) + memUnit))
    ensures ReadPair(doc, base) == Success(Res(cpu, mem))
  {
    QuantityRoundTrip(cpu, cpuUnit);
    QuantityRoundTrip(mem, memUnit);
  }

  /** The pair depends on the two leaves it reads and on nothing else. */
  lemma ReadPairReadsLeaves(a: Value, b: Value, base: seq<Step>)
    requires Get(a, base + [Key("cpu")]) == Get(b, base + [Key("cpu")])
    requires Get(a, base + [Key("memory")]) == Get(b, base + [Key("memory")])
    ensures ReadPair(a, base) == ReadPair(b, base)
  {
  }

  /** A quantity whose cpu string is a bare number ("4") cannot be read:
      stripping the one-character suffix leaves nothing to parse. */
  lemma BareCpuRejected()
    ensures ParseQuantity("4", CpuSuffix) == Failure(NotAnInteger(""))
  {
  }

  /** "16Gi" and "16Mi" read as the same memory quantity. */
  lemma UnitsNotConverted()
    ensures ParseQuantity("16Gi", MemorySuffix) == ParseQuantity("16Mi", MemorySuffix) == Success(16)
  {
    QuantityRoundTrip(16, "Gi");
    QuantityRoundTrip(16, "Mi");
    assert Text.DigitChar(1) == '1' && Text.DigitChar(6) == '6';
    assert Text.IntToString(16) == "16";
    assert "16" + "Gi" == "16Gi" && "16" + "Mi" == "16Mi";
  }
}
