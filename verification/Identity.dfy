/** Length-prefixed encodings that stand for identities: partition keys, the
    associated data of sealed sessions, request digests and attachment identities. */
module Identity {
  import opened Octets

  // ----- Lists of fields ---------------------------------------------------------------------

  function Field(width: nat, value: Bytes): Bytes { BigEndian(|value|, width) + value }

  /** Every field preceded by its length. */
  function Fields(width: nat, values: seq<Bytes>): Bytes {
    if values == [] then [] else Field(width, values[0]) + Fields(width, values[1..])
  }

  ghost predicate Short(values: seq<Bytes>, limit: nat) { forall k | 0 <= k < |values| :: |values[k]| < limit }

  lemma FieldSplits(width: nat, left: Bytes, leftRest: Bytes, right: Bytes, rightRest: Bytes)
    requires |left| < Pow2(8 * width) && |right| < Pow2(8 * width)
    requires Field(width, left) + leftRest == Field(width, right) + rightRest
    ensures left == right && leftRest == rightRest
  {
    var all, other := Field(width, left) + leftRest, Field(width, right) + rightRest;
    assert all[..width] == BigEndian(|left|, width) && other[..width] == BigEndian(|right|, width);
    BigEndianDiffers(|left|, |right|, width);
    assert all[width..width + |left|] == left && other[width..width + |left|] == right;
    assert all[width + |left|..] == leftRest && other[width + |left|..] == rightRest;
  }

  /** Lists of any length are recovered from their encoding. */
  lemma {:induction false} FieldsAreDecodable(width: nat, left: seq<Bytes>, right: seq<Bytes>)
    requires width > 0 && Short(left, Pow2(8 * width)) && Short(right, Pow2(8 * width))
    requires Fields(width, left) == Fields(width, right)
    ensures left == right
    decreases |left|
  {
    if left != [] && right != [] {
      FieldSplits(width, left[0], Fields(width, left[1..]), right[0], Fields(width, right[1..]));
      FieldsAreDecodable(width, left[1..], right[1..]);
      assert left == [left[0]] + left[1..] && right == [right[0]] + right[1..];
    }
  }

  lemma {:induction false} FieldsAppend(width: nat, left: seq<Bytes>, right: seq<Bytes>)
    ensures Fields(width, left + right) == Fields(width, left) + Fields(width, right)
    decreases |left|
  {
    if left == [] {
      assert left + right == right;
    } else {
      assert (left + right)[1..] == left[1..] + right;
      FieldsAppend(width, left[1..], right);
    }
  }

  lemma FieldsOfOne(width: nat, value: Bytes)
    ensures Fields(width, [value]) == Field(width, value)
  {
  }

  /** Appends one field at a time, as all the encoders do. */
  method WriteFields(width: nat, written: Bytes, values: seq<Bytes>) returns (result: Bytes)
    ensures result == written + Fields(width, values)
  {
    hide Field;
    result := written;
    for k := 0 to |values|
      invariant result == written + Fields(width, values[..k])
    {
      assert values[..k + 1] == values[..k] + [values[k]];
      FieldsAppend(width, values[..k], [values[k]]);
      FieldsOfOne(width, values[k]);
      result := result + Field(width, values[k]);
    }
    assert values[..|values|] == values;
  }

  // ----- Partition keys and associated data ------------------------------------------------------

  method PartitionKey(tenantID: Bytes, connectionID: Bytes, conversationID: Bytes) returns (key: Bytes)
    ensures key == Fields(4, [tenantID, connectionID, conversationID])
  {
    key := WriteFields(4, [], [tenantID, connectionID, conversationID]);
  }

  /** Keys of three-part identities below this length determine the identity. */
  ghost predicate KeysIdentify(limit: nat) {
    forall left: seq<Bytes>, right: seq<Bytes> |
      |left| == 3 && |right| == 3 && Short(left, limit) && Short(right, limit) && Fields(4, left) == Fields(4, right) ::
      left == right
  }

  function Zeros(n: nat): (z: Bytes)
    ensures |z| == n && forall k | 0 <= k < n :: z[k] == 0
  {
    seq(n, _ => 0)
  }

  lemma ZeroFields(values: seq<Bytes>)
    requires |values| == 3 && forall k | 0 <= k < 3 :: values[k] == [] || values[k] == Zeros(0x1_0000_0000)
    ensures Fields(4, values) == Zeros(12 + |values[0]| + |values[1]| + |values[2]|)
  {
    assert values == [values[0]] + [values[1]] + [values[2]];
    FieldsAppend(4, [values[0]] + [values[1]], [values[2]]);
    FieldsAppend(4, [values[0]], [values[1]]);
    ZeroField(values[0]);
    ZeroField(values[1]);
    ZeroField(values[2]);
    FieldsOfOne(4, values[0]);
    FieldsOfOne(4, values[1]);
    FieldsOfOne(4, values[2]);
  }

  /** A length of 2^32 is written as zero. */
  lemma ZeroField(value: Bytes)
    requires value == [] || value == Zeros(0x1_0000_0000)
    ensures Field(4, value) == Zeros(4 + |value|)
  {
    assert BigEndian(0, 4) == [0, 0, 0, 0] by { ZeroPrefix(0); }
    assert BigEndian(0x1_0000_0000, 4) == [0, 0, 0, 0] by { ZeroPrefix(1); }
  }

  lemma ZeroPrefix(n: nat)
    requires n <= 1
    ensures BigEndian(n * 0x1_0000_0000, 4) == [0, 0, 0, 0]
  {
    assert BigEndian(n * 0x100, 1) == [0];
    assert BigEndian(n * 0x1_0000, 2) == [0, 0];
    assert BigEndian(n * 0x100_0000, 3) == [0, 0, 0];
  }

  lemma LongPartsCollide(limit: nat)
    requires limit > 0x1_0000_0000
    ensures !KeysIdentify(limit)
  {
    hide Fields;
    var long: Bytes := Zeros(0x1_0000_0000);
    var left, right: seq<Bytes> := [long, [], []], [[], [], long];
    ZeroFields(left);
    ZeroFields(right);
    assert |left[0]| != |right[0]|;
    assert Short(left, limit) && Short(right, limit);
  }

  /** Partition keys identify their three parts exactly up to lengths below 2^32. */
  lemma PartitionKeysIdentify(limit: nat)
    ensures KeysIdentify(limit) <==> limit <= 0x1_0000_0000
  {
    hide Pow2, Fields;
    if limit <= 0x1_0000_0000 {
      CommonPowers();
      forall left: seq<Bytes>, right: seq<Bytes> |
        |left| == 3 && |right| == 3 && Short(left, limit) && Short(right, limit) && Fields(4, left) == Fields(4, right)
        ensures left == right
      {
        FieldsAreDecodable(4, left, right);
      }
    } else {
      LongPartsCollide(limit);
    }
  }

  datatype Scope = Scope(tenantID: Bytes, connectionID: Bytes, provider: Bytes)

  /** uint32(version) */
  function Version32(version: int): nat { version % 0x1_0000_0000 }

  method AssociatedData(version: int, scope: Scope) returns (data: Bytes)
    ensures data == BigEndian(Version32(version), 4) + Fields(4, [scope.tenantID, scope.connectionID, scope.provider])
  {
    data := BigEndian(Version32(version), 4);
    data := WriteFields(4, data, [scope.tenantID, scope.connectionID, scope.provider]);
  }

  lemma SameVersion(version: int, version': int)
    ensures Version32(version) == Version32(version') <==> (version - version') % 0x1_0000_0000 == 0
  {
  }

  /** A ciphertext sealed for one version and scope is bound to them. */
  lemma AssociatedDataIdentifies(version: int, scope: Scope, version': int, scope': Scope)
    requires Short([scope.tenantID, scope.connectionID, scope.provider], 0x1_0000_0000)
    requires Short([scope'.tenantID, scope'.connectionID, scope'.provider], 0x1_0000_0000)
    ensures BigEndian(Version32(version), 4) + Fields(4, [scope.tenantID, scope.connectionID, scope.provider])
            == BigEndian(Version32(version'), 4) + Fields(4, [scope'.tenantID, scope'.connectionID, scope'.provider])
            <==> scope == scope' && (version - version') % 0x1_0000_0000 == 0
  {
    hide Fields, BigEndian;
    SameVersion(version, version');
    CommonPowers();
    var values, values' := [scope.tenantID, scope.connectionID, scope.provider],
        [scope'.tenantID, scope'.connectionID, scope'.provider];
    var head, head' := BigEndian(Version32(version), 4), BigEndian(Version32(version'), 4);
    if head + Fields(4, values) == head' + Fields(4, values') {
      assert (head + Fields(4, values))[..4] == head && (head' + Fields(4, values'))[..4] == head';
      assert (head + Fields(4, values))[4..] == Fields(4, values)
          && (head' + Fields(4, values'))[4..] == Fields(4, values');
      BigEndianDiffers(Version32(version), Version32(version'), 4);
      FieldsAreDecodable(4, values, values');
      assert values[0] == values'[0] && values[1] == values'[1] && values[2] == values'[2];
    }
  }
}
