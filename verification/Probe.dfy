/** The data of the CPUID probe, and a reader that takes it out of a JSON value, member by member. */
module Probe {
  import opened Models
  import opened ByteStrings
  import opened Decoder
  import opened Json

  datatype FeatureSet = FeatureSet(
    sse2: bool,
    sse41: bool,
    sse42: bool,
    avxHardware: bool,
    avx2Hardware: bool,
    avxOsEnabled: bool,
    aes: bool,
    vmx: bool,
    svm: bool)

  datatype ProbeData = ProbeData(
    architecture: Bytes,
    vendorId: Bytes,
    brandString: Option<Bytes>,
    maxBasicLeaf: U32,
    maxExtendedLeaf: U32,
    features: FeatureSet,
    caches: seq<CacheInfo>)

  // ---- Reading ----

  /** The first member of that name. */
  function Lookup(members: seq<(Bytes, Value)>, name: string): Option<Value> {
    if members == [] then None
    else if IsText(members[0].0, name) then Some(members[0].1)
    else Lookup(members[1..], name)
  }

  function NatAt(members: seq<(Bytes, Value)>, name: string): Option<nat> {
    match Lookup(members, name)
    case Some(JNumber(n)) => if !n.negative && n.fraction == [] && n.exponent == 0 then Some(n.whole) else None
    case _ => None
  }

  function BoolAt(members: seq<(Bytes, Value)>, name: string): Option<bool> {
    match Lookup(members, name)
    case Some(JBool(b)) => Some(b)
    case _ => None
  }

  function TextAt(members: seq<(Bytes, Value)>, name: string): Option<Bytes> {
    match Lookup(members, name)
    case Some(JString(bytes)) => Some(bytes)
    case _ => None
  }

  function KindAt(members: seq<(Bytes, Value)>, name: string): Option<CacheKind> {
    match TextAt(members, name)
    case Some(text) =>
      if IsText(text, "data") then Some(Data)
      else if IsText(text, "instruction") then Some(Instruction)
      else if IsText(text, "unified") then Some(Unified)
      else None
    case None => None
  }

  predicate Fits32(n: Option<nat>) {
    n.Some? && n.value < 0x1_0000_0000
  }

  function ReadCache(v: Value): Option<CacheInfo> {
    if !v.JObject? then None
    else
      var m := v.members;
      var level, kind, size := NatAt(m, "level"), KindAt(m, "kind"), NatAt(m, "size_bytes");
      var line, sets, ways, partitions := NatAt(m, "line_size_bytes"), NatAt(m, "sets"), NatAt(m, "ways"), NatAt(m, "partitions");
      if Fits32(level) && kind.Some? && size.Some? && size.value < 0x1_0000_0000_0000_0000
         && Fits32(line) && Fits32(sets) && Fits32(ways) && Fits32(partitions)
      then Some(CacheInfo(level.value, kind.value, size.value, line.value, sets.value, ways.value, partitions.value))
      else None
  }

  function ReadCaches(items: seq<Value>): Option<seq<CacheInfo>> {
    if items == [] then Some([])
    else
      var first, rest := ReadCache(items[0]), ReadCaches(items[1..]);
      if first.Some? && rest.Some? then Some([first.value] + rest.value) else None
  }

  function ReadFeatures(v: Value): Option<FeatureSet> {
    if !v.JObject? then None
    else
      var m := v.members;
      var sse2, sse41, sse42 := BoolAt(m, "sse2"), BoolAt(m, "sse41"), BoolAt(m, "sse42");
      var avx, avx2, enabled := BoolAt(m, "avx_hardware"), BoolAt(m, "avx2_hardware"), BoolAt(m, "avx_os_enabled");
      var aes, vmx, svm := BoolAt(m, "aes"), BoolAt(m, "vmx"), BoolAt(m, "svm");
      if sse2.Some? && sse41.Some? && sse42.Some? && avx.Some? && avx2.Some? && enabled.Some? && aes.Some? && vmx.Some? && svm.Some?
      then Some(FeatureSet(sse2.value, sse41.value, sse42.value, avx.value, avx2.value, enabled.value, aes.value, vmx.value, svm.value))
      else None
  }

  /** The brand string is a text or null. */
  function BrandAt(members: seq<(Bytes, Value)>): Option<Option<Bytes>> {
    match Lookup(members, "brand_string")
    case Some(JString(bytes)) => Some(Some(bytes))
    case Some(JNull) => Some(None)
    case _ => None
  }

  function FeaturesAt(members: seq<(Bytes, Value)>): Option<FeatureSet> {
    match Lookup(members, "features")
    case Some(v) => ReadFeatures(v)
    case None => None
  }

  function CachesAt(members: seq<(Bytes, Value)>): Option<seq<CacheInfo>> {
    match Lookup(members, "caches")
    case Some(JArray(items)) => ReadCaches(items)
    case _ => None
  }

  function FromJson(v: Value): Option<ProbeData> {
    if !v.JObject? then None
    else
      var m := v.members;
      var architecture, vendor, brand := TextAt(m, "architecture"), TextAt(m, "vendor_id"), BrandAt(m);
      var basic, extended := NatAt(m, "max_basic_leaf"), NatAt(m, "max_extended_leaf");
      var features, caches := FeaturesAt(m), CachesAt(m);
      if architecture.Some? && vendor.Some? && brand.Some? && Fits32(basic) && Fits32(extended) && features.Some? && caches.Some?
      then Some(ProbeData(architecture.value, vendor.value, brand.value, basic.value, extended.value, features.value, caches.value))
      else None
  }

  lemma {:induction false} LookupFinds(members: seq<(Bytes, Value)>, k: nat, name: string)
    requires k < |members| && IsText(members[k].0, name)
    requires forall j :: 0 <= j < k ==> !IsText(members[j].0, name)
    ensures Lookup(members, name) == Some(members[k].1)
  {
    if k > 0 {
      assert forall j :: 0 <= j < k - 1 ==> members[1..][j] == members[j + 1];
      LookupFinds(members[1..], k - 1, name);
    }
  }
}
