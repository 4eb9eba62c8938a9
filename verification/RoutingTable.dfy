/** The shipped routing table. */
module RoutingTable {
  import opened ByteStrings
  import opened Patcher

  const RANGE_0 := Patch(0x282F8, 12,
    0xed451a5b137b7b59ebfd3f4bb8ff6598a18abce58603b72eed97f50b8d6391b8,
    0x59e44ff04f935f33e91e44d52771e6188e7a50c735c07b54f236087a818925d7,
    [Write(1, [0x00, 0x50]), Write(11, [0x8a])])

  const RANGE_1 := Patch(0xDA04, 16,
    0xcad698e029e49e8557fa4259c816e318021875a348f0d2b967ed1579fce8439b,
    0x9bf52da965bdf744685e93b31353826af7bc74bc1fc3248d91f3b89f493444fe,
    [Write(1, [0x00, 0x50]), Write(4, [0x00]), Write(7, [0x93]), Write(11, [0x9a, 0x01]), Write(15, [0xe3])])

  const RANGE_2 := Patch(0x35FE0, 4,
    0x85a84a4f037c33de92504a8958803d3ca0aa78d17145ea83a7683d3f2fcc2547,
    0x71b1548a3867fe8e62a860f8010becb36b0386c9e97d552809cebccb9d93881d,
    [Write(0, [0x00, 0x00, 0xa0])])

  const RANGE_3 := Patch(0x35FF4, 4,
    0x4954ed54e1284656fc34df4acf32b7bb7239c20a64300e0d7698c727e1de8391,
    0x71b1548a3867fe8e62a860f8010becb36b0386c9e97d552809cebccb9d93881d,
    [Write(0, [0x00, 0x00, 0xa0, 0xe1])])

  const RANGE_4 := Patch(0x36000, 16,
    0x52c4701f0ebe03e78c0fed564727560fa0fc58e477656da7c254df341da5a55f,
    0x801b48661d2b117e9d4c1065f5b27b8e68938ac8efaf47e5a1db1211d495f592,
    [Write(0, [0x00, 0x00]), Write(4, [0x00, 0x00]), Write(8, [0x00]), Write(12, [0x00, 0x00, 0xa0, 0xe1])])

  const RANGE_5 := Patch(0x363D8, 4,
    0x578b7e8e1392acf5b7a042f27140fdff16d967de87b359c4629374f363061deb,
    0x588247adc40731e7dac725b7c418ce8dedc2a7318e61f12836086f31d5d41520,
    [Write(0, [0x8c, 0x78])])

  const RANGE_6 := Patch(0x28420, 60,
    0x4a113f9e80b59325c236497a1f60eb4c25ecfc818d846bc838d30d7a9d153d48,
    0x16f1f5712d28c39b0e2ddf193b57ea53b9d8f498d42cee86625f2ff2792eef5c,
    [Write(0, [0x01, 0x00, 0x58, 0xe3, 0x05, 0x00, 0x00, 0x1a, 0x70, 0x21, 0x9f, 0xe5, 0x78, 0x11, 0x9f, 0xe5, 0x02,
      0x20, 0x8f, 0xe0, 0x01, 0x10, 0x8f, 0xe0, 0x05]), Write(26, [0xa0, 0xe1, 0x6c, 0xc3, 0xff, 0xeb, 0x5c, 0x21,
      0x9f]), Write(36, [0x5c, 0x31, 0x9f, 0xe5, 0x02, 0x90, 0x96, 0xe7, 0x03, 0x60, 0x96, 0xe7, 0x00, 0x00, 0xa0,
      0xe1, 0x00, 0x00]), Write(55, [0xe1, 0x00, 0x00, 0xa0])])

  const RANGE_7 := Patch(0x285A0, 4,
    0xc77ead30bd3f6cae55371b8695c71e4c28de7b2006d3f17cd0a2629cdc98a5df,
    0x27d18ebd92839189526cb6345d7f2d5e043d7551446dd60407975ef0e46e5cc4,
    [Write(0, [0x48, 0x54])])

  const RANGE_8 := Patch(0x285AC, 4,
    0xa883b9c4475398a5852aaf4ef0b4cbd8bd0557c4206c4d8bafd69832c8d56a47,
    0xa828ca69c6e94a3592c35b9989123858720ac9b114514e040d53a604f87e1d6d,
    [Write(0, [0x48])])

  const PATCHES := [RANGE_0, RANGE_1, RANGE_2, RANGE_3, RANGE_4, RANGE_5, RANGE_6, RANGE_7, RANGE_8]

  predicate WellFormed(p: Patch) { forall j :: 0 <= j < |p.writes| ==> InRange(p, p.writes[j]) }

  /** The premises of the overlay theorem hold of the shipped table. */
  lemma ShippedTableIsDisjoint()
    ensures Disjoint(PATCHES) && forall i :: 0 <= i < |PATCHES| ==> WellFormed(PATCHES[i])
  {
  }

  /** The shipped table never fails for a write out of range: every refusal is a failed hash. */
  lemma {:induction false} ShippedWritesFit(hash: Bytes -> Digest, d: Bytes, i: nat)
    requires i <= |PATCHES|
    ensures PatchFrom(hash, d, PATCHES, i) != Refused(WriteOutOfRange)
    decreases |PATCHES| - i
  {
    if i < |PATCHES| {
      ShippedTableIsDisjoint();
      var p := PATCHES[i];
      if p.offset + p.length <= |d| { WritesAreLocal(d, p, 0); }
      if PatchOne(hash, d, p).Patched? { ShippedWritesFit(hash, PatchOne(hash, d, p).data, i + 1); }
    }
  }
}
