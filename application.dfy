/**
 * The host-side helpers of the tester application (class
 * Tester::Application): the expected vertex-shader outputs gathered from
 * the vertex and index buffers, and the vendor read from the OpenCL
 * platform's vendor string.
 */
module Application {
  import opened Wrappers
  import opened Columns
  import opened TestVector

  /** 2^32: `uint32_t` arithmetic is modulo this. */
  const Modulus: nat := 0x1_0000_0000

  /** Floats per vertex: a position and a colour of three components each. */
  const VertexWidth: nat := 6

  /** The position of component `j` of vertex `i`, computed as `6 * i + j` in `uint32_t`. */
  function Offset(i: UInt32, j: nat): nat {
    (VertexWidth * i + j) % Modulus
  }

  /** All six components of vertex `i` lie inside a buffer of `size` floats. */
  predicate VertexInRange(size: nat, i: UInt32) {
    forall j :: 0 <= j < VertexWidth ==> Offset(i, j) < size
  }

  /**
   * getExpectedVertex: the six components of every indexed vertex, in index
   * order. `vector::at` throws on the first offset outside the buffer; the
   * failure carries the position in `indices` of the vertex that could not
   * be read, the first one that falls outside.
   */
  method GetExpectedVertex(vertex: seq<Float>, indices: seq<UInt32>) returns (r: Result<seq<Float>, nat>)
    ensures r.Success? <==> forall k :: 0 <= k < |indices| ==> VertexInRange(|vertex|, indices[k])
    ensures r.Success? ==> |r.value| == VertexWidth * |indices|
    ensures r.Success? ==> forall p :: 0 <= p < |r.value| ==>
      r.value[p] == vertex[Offset(indices[p / VertexWidth], p % VertexWidth)]
    ensures r.Failure? ==> r.error < |indices| && !VertexInRange(|vertex|, indices[r.error])
    ensures r.Failure? ==> forall k :: 0 <= k < r.error ==> VertexInRange(|vertex|, indices[k])
  {
    var result: seq<Float> := [];
    var k := 0;
    while k < |indices|
      invariant k <= |indices| && |result| == VertexWidth * k
      invariant forall q :: 0 <= q < k ==> VertexInRange(|vertex|, indices[q])
      invariant forall p :: 0 <= p < |result| ==>
        p / VertexWidth < k && result[p] == vertex[Offset(indices[p / VertexWidth], p % VertexWidth)]
    {
      var i := indices[k];
      var j := 0;
      while j < VertexWidth
        invariant j <= VertexWidth && |result| == VertexWidth * k + j
        invariant forall q :: 0 <= q < j ==> Offset(i, q) < |vertex|
        invariant forall p :: 0 <= p < |result| ==>
          p / VertexWidth <= k && result[p] == vertex[Offset(indices[p / VertexWidth], p % VertexWidth)]
      {
        var at := Offset(i, j);
        if at >= |vertex| {
          return Failure(k);
        }
        SlotOf(k, j);
        result := result + [vertex[at]];
        j := j + 1;
      }
      k := k + 1;
    }
    r := Success(result);
  }

  /** Position `6 * k + j` of the output is component `j` of the `k`-th vertex. */
  lemma SlotOf(k: nat, j: nat)
    requires j < VertexWidth
    ensures (VertexWidth * k + j) / VertexWidth == k && (VertexWidth * k + j) % VertexWidth == j
  {
  }

  /**
   * When no `6 * i + 5` wraps around, a vertex can be read exactly when its
   * last component `6 * i + 5` lies inside the buffer, and component `j` is
   * read from `6 * i + j`.
   */
  lemma NoWrapOffsets(size: nat, i: UInt32)
    requires VertexWidth * i + 5 < Modulus
    ensures VertexInRange(size, i) <==> VertexWidth * i + 5 < size
    ensures forall j :: 0 <= j < VertexWidth ==> Offset(i, j) == VertexWidth * i + j
  {
    if VertexWidth * i + 5 < size {
      forall j | 0 <= j < VertexWidth
        ensures Offset(i, j) < size
      {
        assert Offset(i, j) == VertexWidth * i + j;
      }
    } else {
      assert Offset(i, 5) == VertexWidth * i + 5;
    }
  }

  /** getExpectedIndex: every index repeated six times, once per component of its vertex. */
  method GetExpectedIndex(index: seq<UInt32>) returns (r: seq<UInt32>)
    ensures |r| == VertexWidth * |index|
    ensures forall p :: 0 <= p < |r| ==> r[p] == index[p / VertexWidth]
  {
    r := [];
    var k := 0;
    while k < |index|
      invariant k <= |index| && |r| == VertexWidth * k
      invariant forall p :: 0 <= p < |r| ==> r[p] == index[p / VertexWidth]
    {
      var j := 0;
      while j < VertexWidth
        invariant j <= VertexWidth && |r| == VertexWidth * k + j
        invariant forall p :: 0 <= p < |r| ==> r[p] == index[p / VertexWidth]
      {
        SlotOf(k, j);
        r := r + [index[k]];
        j := j + 1;
      }
      k := k + 1;
    }
  }

  /** `pattern` occurs in `s`, as std::string::find reports it. */
  predicate Contains(s: string, pattern: string)
    decreases |s|
  {
    |pattern| <= |s| && (s[..|pattern|] == pattern || Contains(s[1..], pattern))
  }

  predicate NamesNvidia(vendor: string) {
    Contains(vendor, "NVIDIA") || Contains(vendor, "nvidia")
  }

  predicate NamesAmd(vendor: string) {
    Contains(vendor, "AMD") || Contains(vendor, "amd") || Contains(vendor, "Advanced micro devices")
  }

  predicate NamesIntel(vendor: string) {
    Contains(vendor, "INTEL") || Contains(vendor, "intel")
  }

  /**
   * The vendor the application takes from the platform's vendor string:
   * the NVIDIA, AMD and INTEL checks run in that order and each match
   * overwrites the last, so INTEL wins over AMD and AMD over NVIDIA; with
   * no match the vendor keeps its `current` value.
   */
  method ClassifyVendor(vendor: string, current: Vendor) returns (v: Vendor)
    ensures NamesIntel(vendor) ==> v == INTEL
    ensures !NamesIntel(vendor) && NamesAmd(vendor) ==> v == AMD
    ensures !NamesIntel(vendor) && !NamesAmd(vendor) && NamesNvidia(vendor) ==> v == NVIDIA
    ensures !NamesIntel(vendor) && !NamesAmd(vendor) && !NamesNvidia(vendor) ==> v == current
  {
    v := current;
    if NamesNvidia(vendor) {
      v := NVIDIA;
    }
    if NamesAmd(vendor) {
      v := AMD;
    }
    if NamesIntel(vendor) {
      v := INTEL;
    }
  }

  /** A pattern at position `at` of the text is found. */
  lemma {:induction false} ContainsAt(s: string, pattern: string, at: nat)
    requires at + |pattern| <= |s| && s[at..at + |pattern|] == pattern
    ensures Contains(s, pattern)
  {
    if at > 0 {
      assert s[1..][at - 1..at - 1 + |pattern|] == s[at..at + |pattern|];
      ContainsAt(s[1..], pattern, at - 1);
    }
  }

  /** Whatever is found occurs at some position of the text. */
  lemma {:induction false} ContainsFound(s: string, pattern: string) returns (at: nat)
    requires Contains(s, pattern)
    ensures at + |pattern| <= |s| && s[at..at + |pattern|] == pattern
    decreases |s|
  {
    if s[..|pattern|] == pattern {
      at := 0;
    } else {
      var rest := ContainsFound(s[1..], pattern);
      at := rest + 1;
      assert s[1..][rest..rest + |pattern|] == s[at..at + |pattern|];
    }
  }

  /** A pattern whose first character starts no window of the text is not found. */
  lemma {:induction false} ContainsNot(s: string, pattern: string)
    requires |pattern| >= 1
    requires forall at :: 0 <= at && at + |pattern| <= |s| ==> s[at] != pattern[0]
    ensures !Contains(s, pattern)
    decreases |s|
  {
    if |pattern| <= |s| {
      assert s[..|pattern|][0] == s[0];
      forall at | 0 <= at && at + |pattern| <= |s[1..]|
        ensures s[1..][at] != pattern[0]
      {
        assert s[1..][at] == s[at + 1];
      }
      ContainsNot(s[1..], pattern);
    }
  }

  /**
   * A vendor string naming AMD and NVIDIA but not Intel: both checks match
   * and the Intel check does not, so ClassifyVendor's contract gives AMD,
   * the later of the two.
   */
  lemma MixedVendorString()
    ensures NamesAmd("AMD and NVIDIA") && NamesNvidia("AMD and NVIDIA")
    ensures !NamesIntel("AMD and NVIDIA")
  {
    var s := "AMD and NVIDIA";
    assert s[..3] == "AMD";
    ContainsAt(s, "NVIDIA", 8);
    forall at | 0 <= at && at + 5 <= |s|
      ensures s[at] != 'I' && s[at] != 'i'
    {
      assert s[at] in s[..10] by { assert s[at] == s[..10][at]; }
      assert s[..10] == "AMD and NV";
    }
    ContainsNot(s, "INTEL");
    ContainsNot(s, "intel");
  }
}
