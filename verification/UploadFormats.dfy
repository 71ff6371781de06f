/** Exactly which arguments PREUPLOAD and UPLOAD accept, and how they are read. */
module UploadFormats {
  import opened Common
  import opened AtText
  import opened Upload
  import Crc16

  lemma NoCommaInDigits(s: string)
    requires AllHexDigits(s) || AllDigits(s)
    ensures ',' !in s
  {
  }

  // ------------------------------------------------------------------ AT+PREUPLOAD

  /** A request as it should be written; the digits may have leading zeros, and name a number below 2^64 or are read as
      the largest one. */
  predicate WellWritten(arg: string, filename: string, digits: string, md5: string) {
    arg == filename + "," + digits + "," + md5
    && ValidName(filename) && ',' !in filename
    && AllDigits(digits) && ParseUnsigned(digits) > 0
    && |md5| == 32 && AllHexDigits(md5)
  }

  lemma WellWrittenIsRead(arg: string, filename: string, digits: string, md5: string)
    requires WellWritten(arg, filename, digits, md5)
    ensures ReadRequest(arg) == Good(filename, ParseUnsigned(digits), md5)
  {
    NoCommaInDigits(digits);
    hide Find, AllDigits, AllHexDigits, Contains, ParseUnsigned;
    var front := filename + "," + digits;
    assert arg == filename + [','] + (digits + "," + md5) == front + [','] + md5;
    FindAfter(filename, ',', digits + "," + md5, 0);
    assert front[|filename| + 1..] == digits;
    FindAfter(front, ',', md5, |filename| + 1);
    assert arg[..|filename|] == filename && arg[|filename| + 1..|front|] == digits && arg[|front| + 1..] == md5;
  }

  /** PREUPLOAD takes exactly the well written requests, and reads them as what they say. */
  lemma RequestIff(arg: string, filename: string, size: nat, md5: string)
    ensures ReadRequest(arg) == Good(filename, size, md5) <==>
            exists digits :: WellWritten(arg, filename, digits, md5) && ParseUnsigned(digits) == size
  {
    forall digits | WellWritten(arg, filename, digits, md5) {
      WellWrittenIsRead(arg, filename, digits, md5);
    }
    if ReadRequest(arg) == Good(filename, size, md5) {
      GoodIsWellWritten(arg);
    }
    hide ReadRequest, WellWritten, ParseUnsigned;
  }

  lemma GoodIsWellWritten(arg: string)
    requires ReadRequest(arg).Good?
    ensures var r := ReadRequest(arg);
      exists digits :: WellWritten(arg, r.filename, digits, r.md5) && ParseUnsigned(digits) == r.size
  {
    hide Find, AllDigits, AllHexDigits, Contains, ParseUnsigned;
    var comma1 := Find(arg, ',', 0).value;
    var comma2 := Find(arg, ',', comma1 + 1).value;
    var filename, digits, md5 := arg[..comma1], arg[comma1 + 1..comma2], arg[comma2 + 1..];
    assert arg == filename + "," + digits + "," + md5;
    assert filename == arg[0..comma1];
    assert WellWritten(arg, filename, digits, md5);
  }

  // ------------------------------------------------------------------ AT+UPLOAD

  /** A frame as it should be written. The data may contain any characters; only its pairs are decoded. */
  predicate WellFramed(arg: string, hex: string, crc: string, len: string, data: seq<Byte>, other: string -> Byte) {
    arg == hex + "," + crc + "," + len
    && |crc| == 4 && AllHexDigits(crc) && AllDigits(len)
    && |hex| % 2 == 0 && |hex| / 2 == ParseUnsigned(len) % TWO_TO_32
    && data == Unhex(hex, other) && Crc16.Crc(data) as nat == Value4(crc)
  }

  /** The last two commas are the separators. */
  lemma SplitFrame(hex: string, crc: string, len: string, other: string -> Byte)
    requires ',' !in crc && ',' !in len
    ensures Judge(hex + "," + crc + "," + len, other) == JudgeParts(hex, crc, len, other)
  {
    hide FindLast, JudgeParts;
    var front := hex + "," + crc;
    var arg := front + "," + len;
    FindLastBefore(front, ',', len, |arg|);
    FindLastLocal(arg, ',', |front|);
    assert arg[..|front|] == front;
    FindLastBefore(hex, ',', crc, |front|);
    assert arg[..|hex|] == hex && arg[|hex| + 1..|front|] == crc && arg[|front| + 1..] == len;
  }

  /** A comma in front of everything else is taken for both separators, so that the same text serves as checksum and as
      length. Such a frame is never sound: only "0000" has a fitting length, and no data do not have that checksum. */
  lemma LoneCommaIsNotSound(rest: string, other: string -> Byte)
    ensures !JudgeParts("", rest, rest, other).Sound?
  {
    if |rest| == 4 && AllHexDigits(rest) && AllDigits(rest) && ParseUnsigned(rest) % TWO_TO_32 == 0 {
      FourDigits(rest);
      FourZeros(rest);
      assert Crc16.Crc([]) == 0xFFFF;
      assert Unhex("", other) == [];
      assert Crc16.Crc(Unhex("", other)) as nat == 0xFFFF;
      hide Crc16.Crc, Value4;
    }
    hide Value4, DecimalValue;
  }

  /** Four digits, read as a decimal number. */
  lemma FourDigits(s: string)
    requires |s| == 4 && AllDigits(s)
    ensures DecimalValue(s) == 1000 * (s[0] - '0') as nat + 100 * (s[1] - '0') as nat + 10 * (s[2] - '0') as nat
                               + (s[3] - '0') as nat
  {
    assert s[..3][..2] == s[..2] && s[..2][..1] == s[..1] && s[..1][..0] == "";
    assert DecimalValue(s[..1]) == (s[0] - '0') as nat;
    assert DecimalValue(s[..2]) == 10 * DecimalValue(s[..1]) + (s[1] - '0') as nat;
    assert DecimalValue(s[..3]) == 10 * DecimalValue(s[..2]) + (s[2] - '0') as nat;
  }

  lemma FourZeros(s: string)
    requires |s| == 4 && AllHexDigits(s) && AllDigits(s) && DecimalValue(s) == 0
    ensures Value4(s) == 0
  {
    FourDigits(s);
    hide DecimalValue;
  }

  /** UPLOAD takes exactly the well framed arguments, and gets their data from them. */
  lemma SoundIff(arg: string, data: seq<Byte>, other: string -> Byte)
    ensures Judge(arg, other) == Sound(data) <==>
            exists hex, crc, len :: WellFramed(arg, hex, crc, len, data, other)
  {
    forall hex, crc, len | WellFramed(arg, hex, crc, len, data, other) ensures Judge(arg, other) == Sound(data) {
      NoCommaInDigits(crc);
      NoCommaInDigits(len);
      SplitFrame(hex, crc, len, other);
      hide Judge, AllHexDigits, AllDigits, Value4, Unhex, Crc16.Crc, ParseUnsigned;
    }
    if Judge(arg, other) == Sound(data) {
      SoundIsWellFramed(arg, other);
    }
    hide Judge, WellFramed;
  }

  lemma SoundIsWellFramed(arg: string, other: string -> Byte)
    requires Judge(arg, other).Sound?
    ensures exists hex, crc, len :: WellFramed(arg, hex, crc, len, Judge(arg, other).data, other)
  {
    hide FindLast, AllHexDigits, AllDigits, Value4, Unhex, Crc16.Crc, ParseUnsigned;
    var last := FindLast(arg, ',', |arg|);
    var prev := FindLast(arg, ',', if last.value == 0 then |arg| else last.value);
    LoneCommaIsNotSound(arg[1..], other);
    var hex, crc, len := arg[..prev.value], arg[prev.value + 1..last.value], arg[last.value + 1..];
    assert arg == hex + "," + crc + "," + len;
    assert WellFramed(arg, hex, crc, len, Judge(arg, other).data, other);
  }
}
