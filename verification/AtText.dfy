/** Text of the AT protocol: hexadecimal, decimal, searching, trimming and command parsing. */
module AtText {
  import opened Common

  // ------------------------------------------------------------------ hexadecimal

  predicate IsDigit(c: char) {
    '0' <= c <= '9'
  }

  predicate IsHexDigit(c: char) {
    IsDigit(c) || 'a' <= c <= 'f' || 'A' <= c <= 'F'
  }

  predicate AllDigits(s: string) {
    forall i :: 0 <= i < |s| ==> IsDigit(s[i])
  }

  predicate AllHexDigits(s: string) {
    forall i :: 0 <= i < |s| ==> IsHexDigit(s[i])
  }

  function HexValue(c: char): (v: nat)
    requires IsHexDigit(c)
    ensures v < 16
  {
    if IsDigit(c) then (c - '0') as nat else if 'a' <= c <= 'f' then 10 + (c - 'a') as nat else 10 + (c - 'A') as nat
  }

  /** A digit of `%x`, and of `%X`. */
  function LowerHex(v: nat): (c: char)
    requires v < 16
    ensures IsHexDigit(c) && HexValue(c) == v && c != ','
  {
    "0123456789abcdef"[v]
  }

  function UpperHex(v: nat): (c: char)
    requires v < 16
    ensures IsHexDigit(c) && HexValue(c) == v && c != ','
  {
    "0123456789ABCDEF"[v]
  }

  /** The checksum is written in capitals, data and digests are not. */
  lemma HexCases(v: nat)
    requires v < 16
    ensures !('a' <= UpperHex(v) <= 'f') && !('A' <= LowerHex(v) <= 'F')
  {
  }

  function HexByte(b: Byte): (s: string)
    ensures |s| == 2 && AllHexDigits(s) && ',' !in s
  {
    [LowerHex((b as nat) / 16), LowerHex((b as nat) % 16)]
  }

  /** Two lower-case digits per byte. */
  function Hex(data: seq<Byte>): (s: string)
    ensures |s| == 2 * |data| && AllHexDigits(s) && ',' !in s
  {
    if data == [] then "" else HexByte(data[0]) + Hex(data[1..])
  }

  /** `sscanf(text, "%2x", &byte)`: on two hexadecimal digits their value; `other` is what it leaves for any other
      text. */
  function ScanPair(text: string, other: string -> Byte): Byte {
    if |text| >= 2 && IsHexDigit(text[0]) && IsHexDigit(text[1]) then
      ByteOf(16 * HexValue(text[0]) + HexValue(text[1]))
    else other(text)
  }

  function ByteOf(n: nat): Byte
    requires n < 256
  {
    n as Byte
  }

  lemma ByteOfNat(b: Byte)
    ensures ByteOf(b as nat) == b
  {
  }

  /** The bytes decoded from an even-length text. */
  function Unhex(text: string, other: string -> Byte): (data: seq<Byte>)
    requires |text| % 2 == 0
    ensures |data| == |text| / 2
  {
    if text == "" then [] else [ScanPair(text, other)] + Unhex(text[2..], other)
  }

  lemma ScanHexByte(b: Byte, rest: string, other: string -> Byte)
    ensures ScanPair(HexByte(b) + rest, other) == b
  {
    hide HexValue, LowerHex, ByteOf;
    var n := b as nat;
    assert n == 16 * (n / 16) + n % 16;
    ByteOfNat(b);
  }

  /** Decoding inverts encoding, whatever `sscanf` does elsewhere. */
  lemma {:induction false} UnhexOfHex(data: seq<Byte>, other: string -> Byte)
    ensures Unhex(Hex(data), other) == data
    decreases |data|
  {
    if data != [] {
      var s := Hex(data);
      assert s[2..] == Hex(data[1..]);
      ScanHexByte(data[0], Hex(data[1..]), other);
      UnhexOfHex(data[1..], other);
      hide ScanPair, HexByte;
    }
  }

  /** `%04X`. */
  function Hex4(v: bv16): (s: string)
    ensures |s| == 4 && AllHexDigits(s) && ',' !in s
  {
    var n := v as nat;
    [UpperHex(n / 4096), UpperHex(n / 256 % 16), UpperHex(n / 16 % 16), UpperHex(n % 16)]
  }

  /** `strtoul(text, nullptr, 16)` on four hexadecimal digits. */
  function Value4(s: string): (v: nat)
    requires |s| == 4 && AllHexDigits(s)
    ensures v < 0x1_0000
  {
    4096 * HexValue(s[0]) + 256 * HexValue(s[1]) + 16 * HexValue(s[2]) + HexValue(s[3])
  }

  function NibbleSum(n: nat): nat {
    4096 * (n / 4096) + 256 * (n / 256 % 16) + 16 * (n / 16 % 16) + n % 16
  }

  lemma NibblesAddUp(n: nat)
    ensures NibbleSum(n) == n
  {
    assert n == 16 * (n / 16) + n % 16;
    assert n / 16 == 16 * (n / 16 / 16) + n / 16 % 16;
    assert n / 16 / 16 == n / 256;
    assert n / 256 == 16 * (n / 256 / 16) + n / 256 % 16;
    assert n / 256 / 16 == n / 4096;
  }

  lemma Value4OfHex4(v: bv16)
    ensures Value4(Hex4(v)) == v as nat
  {
    assert Value4(Hex4(v)) == NibbleSum(v as nat) by { hide HexValue, UpperHex; }
    NibblesAddUp(v as nat);
  }

  // ------------------------------------------------------------------ decimal

  function DigitOf(v: nat): (c: char)
    requires v < 10
    ensures IsDigit(c) && (c - '0') as nat == v
  {
    "0123456789"[v]
  }

  /** `std::to_string`. */
  function Decimal(n: nat): (s: string)
    ensures |s| > 0 && AllDigits(s) && ',' !in s
  {
    if n < 10 then [DigitOf(n)] else Decimal(n / 10) + [DigitOf(n % 10)]
  }

  /** The number a string of digits denotes; the empty string denotes 0. */
  function DecimalValue(s: string): nat
    requires AllDigits(s)
    decreases |s|
  {
    if s == "" then 0 else 10 * DecimalValue(s[..|s| - 1]) + (s[|s| - 1] - '0') as nat
  }

  /** `strtoull`, and `strtoul` where `long` has 64 bits: the value, held at the largest one. */
  function ParseUnsigned(s: string): (v: nat)
    requires AllDigits(s)
    ensures v < TWO_TO_64
  {
    if DecimalValue(s) < TWO_TO_64 then DecimalValue(s) else TWO_TO_64 - 1
  }

  lemma {:induction false} DecimalValueOf(n: nat)
    ensures DecimalValue(Decimal(n)) == n
  {
    if n >= 10 {
      DecimalValueOf(n / 10);
      assert Decimal(n)[..|Decimal(n)| - 1] == Decimal(n / 10);
    }
  }

  /** The number of decimal digits. */
  lemma {:induction false} DecimalLength(n: nat)
    ensures n < 1000 ==> |Decimal(n)| <= 3
    ensures 1000 <= n ==> |Decimal(n)| >= 4
    ensures 1000 <= n < 10000 ==> |Decimal(n)| == 4
  {
    if n >= 10 {
      assert |Decimal(n)| == |Decimal(n / 10)| + 1;
      if n >= 100 {
        assert |Decimal(n / 10)| == |Decimal(n / 10 / 10)| + 1;
        if n >= 1000 {
          assert |Decimal(n / 10 / 10)| == |Decimal(n / 10 / 10 / 10)| + 1;
        }
      }
    }
  }

  // ------------------------------------------------------------------ searching

  /** `s.find(c, from)`. */
  function Find(s: string, c: char, from: nat): (r: Option<nat>)
    requires from <= |s|
    ensures r.Some? ==> from <= r.value < |s| && s[r.value] == c && c !in s[from..r.value]
    ensures r.None? ==> c !in s[from..]
    decreases |s| - from
  {
    if from == |s| then None else if s[from] == c then Some(from) else Find(s, c, from + 1)
  }

  /** The last `c` in the first `end` characters. */
  function FindLast(s: string, c: char, end: nat): (r: Option<nat>)
    requires end <= |s|
    ensures r.Some? ==> r.value < end && s[r.value] == c && c !in s[r.value + 1..end]
    ensures r.None? ==> c !in s[..end]
    decreases end
  {
    if end == 0 then None else if s[end - 1] == c then Some(end - 1) else FindLast(s, c, end - 1)
  }

  predicate OccursAt(s: string, t: string, i: nat) {
    i + |t| <= |s| && s[i..i + |t|] == t
  }

  /** Whether `t` occurs in `s`. */
  predicate Contains(s: string, t: string) {
    exists i :: 0 <= i <= |s| && OccursAt(s, t, i)
  }

  /** The first separator is the one after a part that has none. */
  lemma {:induction false} FindAfter(a: string, c: char, b: string, from: nat)
    requires from <= |a| && c !in a[from..]
    ensures Find(a + [c] + b, c, from) == Some(|a|)
    decreases |a| - from
  {
    var s := a + [c] + b;
    if from < |a| {
      assert s[from] == a[from..][0] && a[from + 1..] == a[from..][1..];
      FindAfter(a, c, b, from + 1);
    }
  }

  /** The last separator is the one before a part that has none. */
  lemma {:induction false} FindLastBefore(a: string, c: char, b: string, end: nat)
    requires |a| < end <= |a| + 1 + |b| && c !in b
    ensures FindLast(a + [c] + b, c, end) == Some(|a|)
    decreases end
  {
    var s := a + [c] + b;
    if end > |a| + 1 {
      assert s[end - 1] == b[end - |a| - 2] && b[end - |a| - 2] in b;
      FindLastBefore(a, c, b, end - 1);
    }
  }

  /** Searching backwards looks at nothing behind its start. */
  lemma {:induction false} FindLastLocal(s: string, c: char, end: nat)
    requires end <= |s|
    ensures FindLast(s, c, end) == FindLast(s[..end], c, end)
    decreases end
  {
    if end > 0 && s[end - 1] != c {
      FindLastLocal(s, c, end - 1);
      FindLastLocal(s[..end], c, end - 1);
      assert s[..end][..end - 1] == s[..end - 1];
    }
  }

  // ------------------------------------------------------------------ trimming and parsing

  predicate IsTrimmed(c: char) {
    c == '\r' || c == '\n' || c == ' '
  }

  /** `s` without its trailing '\r', '\n' and ' '. */
  function Trim(s: string): (t: string)
    ensures t <= s && (t == "" || !IsTrimmed(t[|t| - 1]))
    ensures forall i :: |t| <= i < |s| ==> IsTrimmed(s[i])
    decreases |s|
  {
    if s == "" || !IsTrimmed(s[|s| - 1]) then s else Trim(s[..|s| - 1])
  }

  /** `toupper` in the C locale. */
  function Upper(c: char): char {
    if 'a' <= c <= 'z' then c - 'a' + 'A' else c
  }

  function UpperAll(s: string): (t: string)
    ensures |t| == |s| && forall i :: 0 <= i < |s| ==> t[i] == Upper(s[i])
  {
    seq(|s|, i requires 0 <= i < |s| => Upper(s[i]))
  }

  datatype Parsed = NotAt | BadFormat | Command(action: string, arg: string)

  /** What `process` makes of a line before dispatch. */
  function Parse(raw: string): Parsed {
    var cmd := Trim(raw);
    if |cmd| < 2 || cmd[0] != 'A' || cmd[1] != 'T' then NotAt
    else if |cmd| == 2 || cmd[2] != '+' then BadFormat
    else
      var rest := cmd[3..];
      var eq := Find(rest, '=', 0);
      var name := if eq.None? then rest else rest[..eq.value];
      var arg := if eq.None? then "" else rest[eq.value + 1..];
      if name == "" then BadFormat else Command(UpperAll(name), arg)
  }

  /** The trimming and parsing of `process` and `parse_at`, in place as the source does them. */
  method ParseLine(raw: string) returns (parsed: Parsed)
    ensures parsed == Parse(raw)
  {
    var cmd := raw;
    while cmd != "" && IsTrimmed(cmd[|cmd| - 1])
      invariant Trim(cmd) == Trim(raw)
      decreases |cmd|
    {
      cmd := cmd[..|cmd| - 1];
    }
    if |cmd| < 2 || cmd[0] != 'A' || cmd[1] != 'T' {
      return NotAt;
    }
    var ok, action, arg := ParseAt(cmd);
    parsed := if ok then Command(action, arg) else BadFormat;
  }

  method ParseAt(cmd: string) returns (ok: bool, outCmd: string, outArg: string)
    requires |cmd| >= 2 && cmd[0] == 'A' && cmd[1] == 'T'
    requires cmd == Trim(cmd)
    ensures Parse(cmd) == if ok then Command(outCmd, outArg) else BadFormat
  {
    outCmd, outArg := "", "";
    var rest := cmd[2..];
    if rest == "" || rest[0] != '+' {
      return false, outCmd, outArg;
    }
    rest := rest[1..];
    assert rest == cmd[3..];
    var eq := Find(rest, '=', 0);
    if eq.None? {
      outCmd := rest;
    } else {
      outCmd := rest[..eq.value];
      outArg := rest[eq.value + 1..];
    }
    ghost var name := outCmd;
    for i := 0 to |outCmd|
      invariant |outCmd| == |name|
      invariant forall j :: 0 <= j < |name| ==> outCmd[j] == if j < i then Upper(name[j]) else name[j]
    {
      outCmd := outCmd[i := Upper(outCmd[i])];
    }
    assert outCmd == UpperAll(name);
    ok := outCmd != "";
  }

  lemma {:induction false} TrimKeeps(s: string)
    requires s == "" || !IsTrimmed(s[|s| - 1])
    ensures Trim(s) == s
  {
  }

  /** A trimmed line "AT+NAME" or "AT+NAME=arg" parses into its parts. */
  lemma ParseParts(raw: string, name: string, tail: string)
    requires Trim(raw) == "AT+" + name + tail && name != "" && '=' !in name && (tail == "" || tail[0] == '=')
    ensures Parse(raw) == Command(UpperAll(name), if tail == "" then "" else tail[1..])
  {
    hide Trim, UpperAll;
    var rest := name + tail;
    assert ("AT+" + name + tail)[3..] == rest;
    if tail == "" {
      assert rest == name;
      NotFound(name, '=', 0);
    } else {
      assert rest == name + ['='] + tail[1..];
      FindAfter(name, '=', tail[1..], 0);
      assert rest[..|name|] == name && rest[|name| + 1..] == tail[1..];
    }
  }

  predicate IsNamed(t: string, name: string, arg: string) {
    name != "" && '=' !in name && ((t == "AT+" + name && arg == "") || t == "AT+" + name + "=" + arg)
  }

  lemma PrefixIs(t: string)
    ensures "AT" <= t <==> |t| >= 2 && t[0] == 'A' && t[1] == 'T'
    ensures "AT+" <= t <==> |t| >= 3 && t[0] == 'A' && t[1] == 'T' && t[2] == '+'
    ensures "AT+" <= t ==> t == "AT+" + t[3..]
  {
    assert |t| >= 2 ==> t[..2] == [t[0], t[1]];
    assert |t| >= 3 ==> t[..3] == [t[0], t[1], t[2]];
  }

  /** A line is no AT command exactly if it does not begin with "AT". */
  lemma NotAtIff(raw: string)
    ensures Parse(raw) == NotAt <==> !("AT" <= Trim(raw))
  {
    hide Trim, UpperAll, Find;
    PrefixIs(Trim(raw));
  }

  /** It is malformed exactly if no '+' follows, or no name. */
  lemma BadFormatIff(raw: string)
    ensures var t := Trim(raw);
      Parse(raw) == BadFormat <==>
      "AT" <= t && (!("AT+" <= t) || t[3..] == "" || t[3] == '=')
  {
    hide Trim, UpperAll;
    PrefixIs(Trim(raw));
  }

  /** Any other has the name up to the first '=', in capitals, and the argument behind it. */
  lemma CommandIs(raw: string)
    requires Parse(raw).Command?
    ensures exists name :: IsNamed(Trim(raw), name, Parse(raw).arg) && Parse(raw).action == UpperAll(name)
  {
    hide Trim, UpperAll, Find;
    var t := Trim(raw);
    PrefixIs(t);
    var rest := t[3..];
    var eq := Find(rest, '=', 0);
    var name := if eq.None? then rest else rest[..eq.value];
    var arg := Parse(raw).arg;
    if eq.None? {
      FindNone(rest, '=');
    } else {
      SplitAt(rest, '=', eq.value);
      Regroup("AT+", name, "=", arg);
      FindFirst(rest, '=', eq.value);
    }
    assert IsNamed(t, name, arg);
  }

  lemma SplitAt(s: string, c: char, i: nat)
    requires i < |s| && s[i] == c
    ensures s == s[..i] + [c] + s[i + 1..]
  {
  }

  lemma Regroup(a: string, b: string, c: string, d: string)
    ensures a + (b + c + d) == a + b + c + d
  {
  }

  lemma FindNone(s: string, c: char)
    requires Find(s, c, 0) == None
    ensures c !in s
  {
    assert s[0..] == s;
  }

  lemma FindFirst(s: string, c: char, i: nat)
    requires Find(s, c, 0) == Some(i)
    ensures i < |s| && c !in s[..i]
  {
    assert s[0..i] == s[..i];
  }

  /** Every letter has its capital, and nothing else is changed. */
  lemma UpperLetters(c: char)
    ensures forall i :: 0 <= i < 26 ==> Upper("abcdefghijklmnopqrstuvwxyz"[i]) == "ABCDEFGHIJKLMNOPQRSTUVWXYZ"[i]
    ensures c !in "abcdefghijklmnopqrstuvwxyz" ==> Upper(c) == c
  {
    var lower := "abcdefghijklmnopqrstuvwxyz";
    forall i | 0 <= i < 26 ensures lower[i] == 'a' + i as char && "ABCDEFGHIJKLMNOPQRSTUVWXYZ"[i] == 'A' + i as char {
    }
    if 'a' <= c <= 'z' {
      assert c == lower[(c - 'a') as nat];
    }
  }

  lemma NotFound(s: string, c: char, from: nat)
    requires from <= |s| && c !in s
    ensures Find(s, c, from) == None
  {
  }

  lemma ParseOf(name: string, arg: string)
    requires name != "" && '=' !in name && UpperAll(name) == name
    requires arg != "" && !IsTrimmed(arg[|arg| - 1])
    ensures Parse("AT+" + name + "=" + arg) == Command(name, arg)
  {
    var raw := "AT+" + name + "=" + arg;
    assert raw[|raw| - 1] == arg[|arg| - 1];
    TrimKeeps(raw);
    assert raw == "AT+" + name + ("=" + arg);
    ParseParts(raw, name, "=" + arg);
    hide Parse;
  }

  lemma ParseOfBare(name: string)
    requires name != "" && '=' !in name && UpperAll(name) == name && !IsTrimmed(name[|name| - 1])
    ensures Parse("AT+" + name) == Command(name, "")
  {
    var raw := "AT+" + name;
    assert raw[|raw| - 1] == name[|name| - 1];
    TrimKeeps(raw);
    assert raw == "AT+" + name + "";
    ParseParts(raw, name, "");
    hide Parse;
  }
}
