/**
 * The rules a test folder is read by (class Tester::Test): the blob-type
 * names of its JSON description, the size of a blob element, the number of
 * `.json` and `.cl` files it may hold, the GPU whose disassembly it names,
 * and the requirement that all expected outputs have one size. The folder
 * walk, the file reads and the JSON parser are not part of this model: the
 * rules are stated over what they deliver.
 */
module TestVector {
  import opened Wrappers

  /** Test::blob_type: the element type of a blob. */
  datatype BlobType = Float32 | UInt32

  /** GPUVenderType. */
  datatype Vendor = AMD | NVIDIA | INTEL

  /** The name of a blob type in a test description. */
  function BlobTypeName(b: BlobType): string {
    match b
    case Float32 => "float32"
    case UInt32 => "uint32"
  }

  /** The lookup table of getBlobType. */
  function BlobTypes(): map<string, BlobType> {
    map["float32" := Float32, "uint32" := UInt32]
  }

  /**
   * getBlobType: an exact, case-sensitive lookup of the name; any other
   * text is refused with a message quoting it.
   */
  function GetBlobType(name: string): (r: Result<BlobType, string>)
    ensures r.Success? <==> (name == "float32" || name == "uint32")
    ensures r.Success? ==> BlobTypeName(r.value) == name
    ensures r.Failure? ==> r.error == "Wrong blob type! String type: \"" + name + "\""
  {
    if name in BlobTypes() then Success(BlobTypes()[name])
    else Failure("Wrong blob type! String type: \"" + name + "\"")
  }

  /** Every blob type is read back from its own name. */
  lemma BlobTypeRoundTrip(b: BlobType)
    ensures GetBlobType(BlobTypeName(b)) == Success(b)
  {
    match b
    case Float32 =>
      assert BlobTypes()[BlobTypeName(b)] == Float32;
    case UInt32 =>
      assert BlobTypes()[BlobTypeName(b)] == UInt32;
  }

  /** The lookup does not fold case: `Float32` and `UINT32` are refused. */
  lemma BlobTypeCaseSensitive()
    ensures GetBlobType("Float32").Failure? && GetBlobType("UINT32").Failure?
  {
    assert "Float32" != "float32" by { assert "Float32"[0] != "float32"[0]; }
    assert "UINT32" != "uint32" by { assert "UINT32"[0] != "uint32"[0]; }
  }

  /** sizeof(float) and sizeof(uint32_t) on the platforms the tester targets. */
  const FloatSize: nat := 4
  const UInt32Size: nat := 4

  /** getTypeSize: the size in bytes of one element of a blob. */
  function GetTypeSize(b: BlobType): (r: nat)
    ensures r == 4
  {
    match b
    case Float32 => FloatSize
    case UInt32 => UInt32Size
  }

  /** How many files of a folder have extension `ext`. */
  function CountExtension(extensions: seq<string>, ext: string): nat {
    multiset(extensions)[ext]
  }

  /** One of the count checks of parseTest: more than two files, or none, is an error. */
  function CheckCount(n: nat, tooMany: string, missing: string): (r: Outcome<string>)
    ensures r.Pass? <==> 1 <= n <= 2
  {
    if n > 2 then Fail(tooMany)
    else if n == 0 then Fail(missing)
    else Pass
  }

  /**
   * The file-count rules of parseTest, as written, over the extensions of
   * the files of a test folder: the `.json` files are counted first, then
   * the `.cl` files.
   */
  function CheckTestFolder(extensions: seq<string>): (r: Outcome<string>)
    ensures r.Pass? <==>
      1 <= CountExtension(extensions, ".json") <= 2 && 1 <= CountExtension(extensions, ".cl") <= 2
    ensures CountExtension(extensions, ".json") > 2 ==> r == Fail("Error: Only one json file should be in test folder!")
    ensures CountExtension(extensions, ".json") == 0 ==> r == Fail("Error: Can't find .json file in test folder!")
    ensures 1 <= CountExtension(extensions, ".json") <= 2 && CountExtension(extensions, ".cl") > 2 ==>
      r == Fail("Error: Only one OpenCl programm should be in test folder!")
    ensures 1 <= CountExtension(extensions, ".json") <= 2 && CountExtension(extensions, ".cl") == 0 ==>
      r == Fail("Error: Can't find .cl file in test folder!")
  {
    var json := CheckCount(CountExtension(extensions, ".json"),
      "Error: Only one json file should be in test folder!", "Error: Can't find .json file in test folder!");
    if json.Fail? then json
    else CheckCount(CountExtension(extensions, ".cl"),
      "Error: Only one OpenCl programm should be in test folder!", "Error: Can't find .cl file in test folder!")
  }

  /** A folder with two descriptions and two programs passes the checks as written. */
  lemma TwoOfEachAccepted()
    ensures CheckTestFolder([".json", ".json", ".cl", ".cl"]).Pass?
  {
    var e := [".json", ".json", ".cl", ".cl"];
    assert ".json" != ".cl" by { assert ".json"[1] != ".cl"[1]; }
    assert multiset(e)[".json"] == 2;
    assert multiset(e)[".cl"] == 2;
  }

  /** The count checks as their messages state them: exactly one file of each kind. */
  function CheckCountStrict(n: nat, tooMany: string, missing: string): (r: Outcome<string>)
    ensures r.Pass? <==> n == 1
  {
    if n > 1 then Fail(tooMany)
    else if n == 0 then Fail(missing)
    else Pass
  }

  /** The file-count rules of parseTest with the bound its messages state. */
  function CheckTestFolderStrict(extensions: seq<string>): (r: Outcome<string>)
    ensures r.Pass? <==> CountExtension(extensions, ".json") == 1 && CountExtension(extensions, ".cl") == 1
    ensures r.Fail? ==> r.error in {
      "Error: Only one json file should be in test folder!", "Error: Can't find .json file in test folder!",
      "Error: Only one OpenCl programm should be in test folder!", "Error: Can't find .cl file in test folder!"}
  {
    var json := CheckCountStrict(CountExtension(extensions, ".json"),
      "Error: Only one json file should be in test folder!", "Error: Can't find .json file in test folder!");
    if json.Fail? then json
    else CheckCountStrict(CountExtension(extensions, ".cl"),
      "Error: Only one OpenCl programm should be in test folder!", "Error: Can't find .cl file in test folder!")
  }

  /** The two rules differ exactly on folders with two files of a kind and none too many of the other. */
  lemma StrictRuleRefinesCount(extensions: seq<string>)
    ensures CheckTestFolderStrict(extensions).Pass? ==> CheckTestFolder(extensions).Pass?
    ensures CheckTestFolder(extensions).Pass? && !CheckTestFolderStrict(extensions).Pass? ==>
      CountExtension(extensions, ".json") == 2 || CountExtension(extensions, ".cl") == 2
  {
  }

  /**
   * The GPU whose disassembly a test names: NVIDIA unless the description
   * has a `Disasm` entry equal to one of the three vendor names. `disasm` is
   * that entry, when there is one; a value that is not a string compares
   * unequal to every name, as any other string does.
   */
  function DisasmVendor(disasm: Option<string>): (v: Vendor)
    ensures v == AMD <==> disasm == Some("AMD")
    ensures v == INTEL <==> disasm == Some("INTEL")
    ensures disasm.None? ==> v == NVIDIA
  {
    var initial := NVIDIA;
    var afterAmd := if disasm == Some("AMD") then AMD else initial;
    var afterNvidia := if disasm == Some("NVIDIA") then NVIDIA else afterAmd;
    if disasm == Some("INTEL") then INTEL else afterNvidia
  }

  /** Only the three exact, upper-case names select a vendor; everything else keeps NVIDIA. */
  lemma DisasmDefault(disasm: Option<string>)
    ensures DisasmVendor(disasm) == NVIDIA <==> disasm !in {Some("AMD"), Some("INTEL")}
    ensures DisasmVendor(Some("amd")) == NVIDIA && DisasmVendor(Some("Intel")) == NVIDIA
  {
    assert "amd" != "AMD" by { assert "amd"[0] != "AMD"[0]; }
    assert "amd" != "INTEL" by { assert "amd"[0] != "INTEL"[0]; }
    assert "Intel" != "INTEL" by { assert "Intel"[1] != "INTEL"[1]; }
    assert "Intel" != "AMD" by { assert "Intel"[0] != "AMD"[0]; }
  }

  /**
   * The check fillBlobs makes once the expected outputs are read, over their
   * sizes in elements: with no output nothing is checked; otherwise every
   * output must have the size of the first.
   */
  function CheckOutputSizes(sizes: seq<nat>, testName: string): (r: Outcome<string>)
    ensures r.Fail? ==> r.error == "All output blobs should have equal sizes! Test:" + testName
  {
    if sizes == [] then Pass
    else if forall k :: 0 <= k < |sizes| ==> sizes[k] == sizes[0] then Pass
    else Fail("All output blobs should have equal sizes! Test:" + testName)
  }

  /** The check fails exactly when two outputs differ in size. */
  lemma OutputSizesIffPairwise(sizes: seq<nat>, testName: string)
    ensures CheckOutputSizes(sizes, testName).Pass? <==>
      forall i, j :: 0 <= i < |sizes| && 0 <= j < |sizes| ==> sizes[i] == sizes[j]
  {
    if CheckOutputSizes(sizes, testName).Pass? && sizes != [] {
      forall i, j | 0 <= i < |sizes| && 0 <= j < |sizes|
        ensures sizes[i] == sizes[j]
      {
        assert sizes[i] == sizes[0] && sizes[j] == sizes[0];
      }
    }
  }
}
