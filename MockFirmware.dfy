/** The AIC8800 test double for firmware loading: images registered by
    name, and a count of successful loads per name. The two mutex-guarded
    maps shared by clones are the fields of one object. */
module MockFirmware {
  import opened Common
  import Aic8800

  datatype FirmwareError = NotFound | InvalidSize | LoadFailed

  /** `FirmwareResult<T>`. */
  datatype FirmwareResult<T> = Ok(value: T) | Err(error: FirmwareError)

  class Loader {
    var firmwares: map<string, seq<u8>>
    /** `load_count`: successful loads per name. */
    var loadCount: map<string, nat>

    /** Only registered names have a load count, and a recorded count is
        at least one. */
    ghost predicate Valid()
      reads this
    {
      && loadCount.Keys <= firmwares.Keys
      && forall name :: name in loadCount ==> loadCount[name] > 0
    }

    /** `MockFirmwareLoader::new`: no images, no counts. */
    constructor ()
      ensures Valid() && firmwares == map[] && loadCount == map[]
    {
      firmwares := map[];
      loadCount := map[];
    }

    /** `add_firmware`: registers the image under the name, replacing any
        image already there; the name's load count is kept. */
    method AddFirmware(name: string, data: seq<u8>)
      requires Valid()
      modifies this
      ensures Valid()
      ensures firmwares == old(firmwares)[name := data] && loadCount == old(loadCount)
    {
      firmwares := firmwares[name := data];
    }

    /** `get_load_count`: 0 for a name never loaded. */
    function GetLoadCount(name: string): (n: nat)
      reads this
      ensures Valid() && n > 0 ==> name in firmwares
    {
      if name in loadCount then loadCount[name] else 0
    }

    /** `load_firmware`: a copy of the named image, counting the load; a
        name with no image is NotFound and changes nothing. */
    method LoadFirmware(name: string) returns (r: FirmwareResult<seq<u8>>)
      requires Valid()
      modifies this
      ensures Valid()
      ensures firmwares == old(firmwares)
      ensures name !in firmwares ==> r == Err(NotFound) && loadCount == old(loadCount)
      ensures name in firmwares ==>
        && r == Ok(firmwares[name])
        && GetLoadCount(name) == old(GetLoadCount(name)) + 1
        && loadCount == old(loadCount)[name := GetLoadCount(name)]
    {
      if name !in firmwares {
        return Err(NotFound);
      }
      var data := firmwares[name];
      var count := if name in loadCount then loadCount[name] else 0;
      loadCount := loadCount[name := count + 1];
      r := Ok(data);
    }

    /** `clear`: every image and every count is dropped. */
    method Clear()
      requires Valid()
      modifies this
      ensures Valid() && firmwares == map[] && loadCount == map[]
    {
      firmwares := map[];
      loadCount := map[];
    }
  }

  /** `create_test_firmware`: `size` copies of `pattern`. */
  function CreateTestFirmware(size: nat, pattern: u8): (fw: seq<u8>)
    ensures |fw| == size
    ensures forall i :: 0 <= i < size ==> fw[i] == pattern
  {
    seq(size, _ => pattern)
  }

  /** `b"AIC8800"`. */
  const MAGIC: seq<u8> := [0x41, 0x49, 0x43, 0x38, 0x38, 0x30, 0x30]

  /** The header fields of the image `create_aic8800_firmware` builds. */
  const HEADER_SIZE: u32 := 64
  const CODE_SIZE: u32 := 4096
  const DATA_OFFSET: u32 := 0x0010_0000

  /** The 64-byte header `create_aic8800_firmware` starts with: the magic,
      version byte 1, the header size, code size and data offset as
      little-endian words, then zeros. */
  function AicHeader(): (h: seq<u8>)
    ensures |h| == HEADER_SIZE
    ensures h[..7] == MAGIC && h[7] == 1
    ensures Aic8800.LeWord(h[8..12]) == HEADER_SIZE
    ensures Aic8800.LeWord(h[12..16]) == CODE_SIZE
    ensures Aic8800.LeWord(h[16..20]) == DATA_OFFSET
    ensures forall i :: 20 <= i < HEADER_SIZE ==> h[i] == 0
  {
    var fields := MAGIC + [0x01] + Aic8800.LeBytes(HEADER_SIZE) + Aic8800.LeBytes(CODE_SIZE)
                  + Aic8800.LeBytes(DATA_OFFSET);
    assert fields[8..12] == Aic8800.LeBytes(HEADER_SIZE);
    assert fields[12..16] == Aic8800.LeBytes(CODE_SIZE);
    assert fields[16..20] == Aic8800.LeBytes(DATA_OFFSET);
    Aic8800.LeRoundTrip(HEADER_SIZE, fields[8..12]);
    Aic8800.LeRoundTrip(CODE_SIZE, fields[12..16]);
    Aic8800.LeRoundTrip(DATA_OFFSET, fields[16..20]);
    fields + Zeros(HEADER_SIZE - |fields|)
  }

  /** `create_aic8800_firmware`: the header, then a branch instruction and
      `code_size - 4` bytes counting up modulo 256. */
  method CreateAic8800Firmware() returns (fw: seq<u8>)
    ensures |fw| == HEADER_SIZE + CODE_SIZE
    ensures fw[..HEADER_SIZE] == AicHeader()
    ensures fw[64..68] == [0x90, 0x00, 0x00, 0xEA]
    ensures forall i :: 0 <= i < CODE_SIZE - 4 ==> fw[68 + i] == i % 256
  {
    fw := AicHeader() + [0x90, 0x00, 0x00, 0xEA];
    ghost var start := fw;
    for i := 0 to CODE_SIZE - 4
      invariant |fw| == 68 + i && fw[..68] == start
      invariant forall j :: 0 <= j < i ==> fw[68 + j] == j % 256
    {
      fw := fw + [i % 256];
    }
  }

  /** The image starts with the magic and is not empty. */
  lemma AicFirmwareMagic(fw: seq<u8>)
    requires |fw| == HEADER_SIZE + CODE_SIZE && fw[..HEADER_SIZE] == AicHeader()
    ensures |fw| > 0 && fw[0..7] == MAGIC
  {
    assert fw[0..7] == AicHeader()[..7];
  }

  // ---------------------------------------------------------------- scenarios

  /** A registered image loads back unchanged, three loads count three, an
      unknown name is NotFound, and after `clear` the image is gone and its
      count is 0. */
  method LoaderScenario(data: seq<u8>) returns (first: FirmwareResult<seq<u8>>, count: nat,
                                                missing: FirmwareResult<seq<u8>>, afterClear: FirmwareResult<seq<u8>>,
                                                countAfterClear: nat)
    ensures first == Ok(data) && count == 3 && missing == Err(NotFound)
    ensures afterClear == Err(NotFound) && countAfterClear == 0
  {
    var loader := new Loader();
    loader.AddFirmware("test.bin", data);
    first := loader.LoadFirmware("test.bin");
    var second := loader.LoadFirmware("test.bin");
    var third := loader.LoadFirmware("test.bin");
    count := loader.GetLoadCount("test.bin");
    missing := loader.LoadFirmware("nonexistent.bin");
    loader.Clear();
    afterClear := loader.LoadFirmware("test.bin");
    countAfterClear := loader.GetLoadCount("test.bin");
  }
}
