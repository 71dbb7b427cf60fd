/**
 The canonical JSON record of one staged entry, and its unique decoding. The concatenation of
 these records, without separators, is what the directory digest is computed from.
 */
module CanonicalRecord {
  import opened Text

  /** Names are sequences of UTF-16 code units; file contents and JSON text are sequences of bytes. */
  type Unit = n: int | 0 <= n < 0x10000
  type Name = seq<Unit>
  type Byte = n: int | 0 <= n < 0x100
  type Bytes = seq<Byte>

  datatype Entry =
    | DirectoryEntry(path: Name)
    | FileEntry(path: Name, size: nat, sha256: Name)

  function HexDigit(d: int): Byte
    requires 0 <= d < 16
  {
    if d < 10 then 48 + d else 87 + d
  }

  function Hex4(u: Unit): Bytes
  {
    [HexDigit(u / 4096), HexDigit(u / 256 % 16), HexDigit(u / 16 % 16), HexDigit(u % 16)]
  }

  const QUOTE: Byte := 34
  const BACKSLASH: Byte := 92

  /** One character of a JSON string, printed in ASCII (section 7 of RFC 8259). */
  function Escape(u: Unit): Bytes
  {
    if u == 34 then [BACKSLASH, QUOTE]
    else if u == 92 then [BACKSLASH, BACKSLASH]
    else if u == 10 then [BACKSLASH, 110]
    else if u == 13 then [BACKSLASH, 114]
    else if u == 9 then [BACKSLASH, 116]
    else if u == 8 then [BACKSLASH, 98]
    else if u == 12 then [BACKSLASH, 102]
    else if 32 <= u <= 126 then [u]
    else [BACKSLASH, 117] + Hex4(u)
  }

  function EscapeAll(s: Name): Bytes
  {
    if s == [] then [] else Escape(s[0]) + EscapeAll(s[1..])
  }

  function Quoted(s: Name): Bytes { [QUOTE] + EscapeAll(s) + [QUOTE] }

  function Decimal(n: nat): Bytes
  {
    if n < 10 then [48 + n] else Decimal(n / 10) + [48 + n % 10]
  }

  /** ASCII text as bytes. */
  function Ascii(s: string): (b: Bytes)
    requires forall i :: 0 <= i < |s| ==> s[i] as int < 0x100
  {
    seq(|s|, i requires 0 <= i < |s| => s[i] as int)
  }

  // The literal texts between the variable parts.
  function DirectoryHead(): Bytes { Ascii("{\"kind\":\"directory\",\"path\":") }
  function FileHead(): Bytes { Ascii("{\"kind\":\"file\",\"path\":") }
  function NullSize(): Bytes { Ascii(",\"sha256\":null,\"size\":") }
  function ShaKey(): Bytes { Ascii(",\"sha256\":") }
  function SizeKey(): Bytes { Ascii(",\"size\":") }
  function Close(): Bytes { Ascii("}") }

  /** Keys sorted, no white space. */
  function Record(e: Entry): Bytes
  {
    match e
    case DirectoryEntry(path) => DirectoryHead() + (Quoted(path) + (NullSize() + (Decimal(0) + Close())))
    case FileEntry(path, size, sha) =>
      FileHead() + (Quoted(path) + (ShaKey() + (Quoted(sha) + (SizeKey() + (Decimal(size) + Close())))))
  }

  function Preimage(entries: seq<Entry>): Bytes
  {
    if entries == [] then [] else Record(entries[0]) + Preimage(entries[1..])
  }

  // ------------------------------------------------------------------ decoding

  datatype Read<+T> = Failed | Got(value: T, rest: Bytes)

  function HexValue(b: Byte): int
  {
    if 48 <= b <= 57 then b - 48 else if 97 <= b <= 102 then b - 87 else -1
  }

  function ReadUnit(s: Bytes): (r: Read<Unit>)
    ensures r.Got? ==> |r.rest| < |s|
  {
    if s == [] then Failed
    else if s[0] != BACKSLASH then Got(s[0], s[1..])
    else if |s| < 2 then Failed
    else if s[1] == 117 then
      if |s| < 6 then Failed
      else
        var a, b, c, d := HexValue(s[2]), HexValue(s[3]), HexValue(s[4]), HexValue(s[5]);
        if a < 0 || b < 0 || c < 0 || d < 0 then Failed else Got(4096 * a + 256 * b + 16 * c + d, s[6..])
    else if s[1] == QUOTE || s[1] == BACKSLASH then Got(s[1], s[2..])
    else if s[1] == 110 then Got(10, s[2..])
    else if s[1] == 114 then Got(13, s[2..])
    else if s[1] == 116 then Got(9, s[2..])
    else if s[1] == 98 then Got(8, s[2..])
    else if s[1] == 102 then Got(12, s[2..])
    else Failed
  }

  function ReadUnits(s: Bytes): Read<Name>
    decreases |s|
  {
    if s == [] then Failed
    else if s[0] == QUOTE then Got([], s[1..])
    else
      match ReadUnit(s)
      case Failed => Failed
      case Got(u, rest) =>
        match ReadUnits(rest)
        case Failed => Failed
        case Got(us, tail) => Got([u] + us, tail)
  }

  function ReadDecimal(acc: nat, s: Bytes): (r: Read<nat>)
    ensures r.Got?
    decreases |s|
  {
    if s == [] || !(48 <= s[0] <= 57) then Got(acc, s) else ReadDecimal(10 * acc + (s[0] - 48), s[1..])
  }

  function ReadLiteral(literal: Bytes, s: Bytes): Read<()>
  {
    if literal <= s then Got((), s[|literal|..]) else Failed
  }

  function ReadQuoted(s: Bytes): Read<Name>
  {
    if s != [] && s[0] == QUOTE then ReadUnits(s[1..]) else Failed
  }

  lemma UnitRoundTrip(u: Unit, rest: Bytes)
    ensures ReadUnit(Escape(u) + rest) == Got(u, rest)
    ensures Escape(u) != [] && Escape(u)[0] != QUOTE
  {
    var s := Escape(u) + rest;
    assert s[|Escape(u)|..] == rest;
    if Escape(u) == [BACKSLASH, 117] + Hex4(u) {
      assert s[2] == Hex4(u)[0] && s[3] == Hex4(u)[1] && s[4] == Hex4(u)[2] && s[5] == Hex4(u)[3];
      HexRoundTrip(u);
    }
  }

  lemma HexRoundTrip(u: Unit)
    ensures 4096 * HexValue(HexDigit(u / 4096)) + 256 * HexValue(HexDigit(u / 256 % 16))
            + 16 * HexValue(HexDigit(u / 16 % 16)) + HexValue(HexDigit(u % 16)) == u
    ensures forall d :: 0 <= d < 16 ==> HexValue(HexDigit(d)) == d
  {
    assert HexValue(HexDigit(u / 4096)) == u / 4096;
    assert HexValue(HexDigit(u / 256 % 16)) == u / 256 % 16;
    assert HexValue(HexDigit(u / 16 % 16)) == u / 16 % 16;
    assert u == 16 * (u / 16) + u % 16;
    assert u / 16 == 16 * (u / 256) + u / 16 % 16;
    assert u / 256 == 16 * (u / 4096) + u / 256 % 16;
  }

  lemma {:induction false} UnitsRoundTrip(s: Name, rest: Bytes)
    ensures ReadUnits(EscapeAll(s) + [QUOTE] + rest) == Got(s, rest)
  {
    var text := EscapeAll(s) + [QUOTE] + rest;
    if s == [] {
      assert text[1..] == rest;
    } else {
      var tail := EscapeAll(s[1..]) + [QUOTE] + rest;
      assert text == Escape(s[0]) + tail;
      UnitRoundTrip(s[0], tail);
      UnitsRoundTrip(s[1..], rest);
      assert [s[0]] + s[1..] == s;
    }
  }

  lemma QuotedRoundTrip(s: Name, rest: Bytes)
    ensures ReadQuoted(Quoted(s) + rest) == Got(s, rest)
  {
    assert (Quoted(s) + rest)[1..] == EscapeAll(s) + [QUOTE] + rest;
    UnitsRoundTrip(s, rest);
  }

  lemma {:induction false} DecimalContinues(n: nat, rest: Bytes)
    ensures ReadDecimal(0, Decimal(n) + rest) == ReadDecimal(n, rest)
  {
    if n < 10 {
      assert (Decimal(n) + rest)[1..] == rest;
    } else {
      var d: Byte := 48 + n % 10;
      assert Decimal(n) + rest == Decimal(n / 10) + ([d] + rest);
      DecimalContinues(n / 10, [d] + rest);
      assert ([d] + rest)[1..] == rest;
    }
  }

  lemma DecimalRoundTrip(n: nat, rest: Bytes)
    requires rest != [] && !(48 <= rest[0] <= 57)
    ensures ReadDecimal(0, Decimal(n) + rest) == Got(n, rest)
  {
    DecimalContinues(n, rest);
  }

  lemma LiteralRoundTrip(literal: Bytes, rest: Bytes)
    ensures ReadLiteral(literal, literal + rest) == Got((), rest)
  {
  }

  function ReadEntry(s: Bytes): Read<Entry>
  {
    match ReadLiteral(FileHead(), s)
    case Got(_, s1) => ReadFile(s1)
    case Failed =>
      match ReadLiteral(DirectoryHead(), s)
      case Got(_, s1) => ReadDirectory(s1)
      case Failed => Failed
  }

  function ReadDirectory(s1: Bytes): Read<Entry>
  {
    match ReadQuoted(s1)
    case Failed => Failed
    case Got(path, s2) =>
      match ReadLiteral(NullSize(), s2)
      case Failed => Failed
      case Got(_, s3) =>
        match ReadLiteral(Close(), ReadDecimal(0, s3).rest)
        case Failed => Failed
        case Got(_, s5) => Got(DirectoryEntry(path), s5)
  }

  function ReadFile(s1: Bytes): Read<Entry>
  {
    match ReadQuoted(s1)
    case Failed => Failed
    case Got(path, s2) =>
      match ReadLiteral(ShaKey(), s2)
      case Failed => Failed
      case Got(_, s3) =>
        match ReadQuoted(s3)
        case Failed => Failed
        case Got(sha, s4) =>
          match ReadLiteral(SizeKey(), s4)
          case Failed => Failed
          case Got(_, s5) =>
            var size := ReadDecimal(0, s5);
            match ReadLiteral(Close(), size.rest)
            case Failed => Failed
            case Got(_, s7) => Got(FileEntry(path, size.value, sha), s7)
  }

  lemma DirectoryRoundTrip(path: Name, rest: Bytes)
    ensures ReadDirectory(Quoted(path) + (NullSize() + (Decimal(0) + (Close() + rest))))
            == Got(DirectoryEntry(path), rest)
  {
    var s4 := Close() + rest;
    var s3 := Decimal(0) + s4;
    var s2 := NullSize() + s3;
    QuotedRoundTrip(path, s2);
    LiteralRoundTrip(NullSize(), s3);
    assert s4[0] == 125;
    DecimalRoundTrip(0, s4);
    LiteralRoundTrip(Close(), rest);
  }

  lemma FileRoundTrip(path: Name, size: nat, sha: Name, rest: Bytes)
    ensures ReadFile(Quoted(path) + (ShaKey() + (Quoted(sha) + (SizeKey() + (Decimal(size) + (Close() + rest))))))
            == Got(FileEntry(path, size, sha), rest)
  {
    var s6 := Close() + rest;
    var s5 := Decimal(size) + s6;
    var s4 := SizeKey() + s5;
    var s3 := Quoted(sha) + s4;
    var s2 := ShaKey() + s3;
    QuotedRoundTrip(path, s2);
    LiteralRoundTrip(ShaKey(), s3);
    QuotedRoundTrip(sha, s4);
    LiteralRoundTrip(SizeKey(), s5);
    assert s6[0] == 125;
    DecimalRoundTrip(size, s6);
    LiteralRoundTrip(Close(), rest);
  }

  lemma HeadsDiffer(s: Bytes)
    ensures ReadLiteral(FileHead(), DirectoryHead() + s) == Failed
  {
    assert DirectoryHead()[9] == 100 && FileHead()[9] == 102;
    assert (DirectoryHead() + s)[9] == 100;
  }

  lemma RecordThen(e: Entry, rest: Bytes)
    ensures Record(e) + rest == match e
              case DirectoryEntry(path) => DirectoryHead()
                + (Quoted(path) + (NullSize() + (Decimal(0) + (Close() + rest))))
              case FileEntry(path, size, sha) =>
                FileHead() + (Quoted(path)
                              + (ShaKey() + (Quoted(sha) + (SizeKey() + (Decimal(size) + (Close() + rest))))))
  {
    hide Quoted, Decimal, DirectoryHead, FileHead, NullSize, ShaKey, SizeKey, Close;
  }

  /** A record followed by anything is read back as that entry followed by the same rest. */
  lemma EntryRoundTrip(e: Entry, rest: Bytes)
    ensures ReadEntry(Record(e) + rest) == Got(e, rest)
    ensures Record(e) != []
  {
    RecordThen(e, rest);
    assert DirectoryHead() != [] && FileHead() != [];
    hide Quoted, Decimal, ReadDirectory, ReadFile, ReadLiteral, DirectoryHead, FileHead, NullSize, ShaKey, SizeKey,
      Close;
    match e
    case DirectoryEntry(path) =>
      var s1 := Quoted(path) + (NullSize() + (Decimal(0) + (Close() + rest)));
      HeadsDiffer(s1);
      LiteralRoundTrip(DirectoryHead(), s1);
      DirectoryRoundTrip(path, rest);
    case FileEntry(path, size, sha) =>
      var s1 := Quoted(path) + (ShaKey() + (Quoted(sha) + (SizeKey() + (Decimal(size) + (Close() + rest)))));
      LiteralRoundTrip(FileHead(), s1);
      FileRoundTrip(path, size, sha, rest);
  }

  lemma AsciiAppend(a: string, b: string)
    requires forall i :: 0 <= i < |a| ==> a[i] as int < 0x100
    requires forall i :: 0 <= i < |b| ==> b[i] as int < 0x100
    ensures Ascii(a + b) == Ascii(a) + Ascii(b)
  {
  }

  /** The texts around the parts are those of the canonical form, keys in order. */
  lemma LiteralsExactly()
    ensures DirectoryHead() == Ascii("{\"kind\":\"directory\",\"path\":")
    ensures NullSize() + Decimal(0) + Close() == Ascii(",\"sha256\":null,\"size\":0}")
    ensures FileHead() == Ascii("{\"kind\":\"file\",\"path\":")
    ensures ShaKey() == Ascii(",\"sha256\":") && SizeKey() == Ascii(",\"size\":") && Close() == Ascii("}")
  {
    var a, b, c := ",\"sha256\":null,\"size\":", "0", "}";
    assert Decimal(0) == Ascii(b);
    AsciiAppend(a, b);
    AsciiAppend(a + b, c);
    assert a + b + c == ",\"sha256\":null,\"size\":0}";
  }

  /** The undelimited concatenation of records decodes in one way only. */
  lemma {:induction false} PreimageIsInjective(a: seq<Entry>, b: seq<Entry>)
    requires Preimage(a) == Preimage(b)
    ensures a == b
  {
    hide Record, ReadEntry;
    if a != [] {
      EntryRoundTrip(a[0], Preimage(a[1..]));
    }
    if b != [] {
      EntryRoundTrip(b[0], Preimage(b[1..]));
    }
    if a != [] && b != [] {
      PreimageIsInjective(a[1..], b[1..]);
      assert a == [a[0]] + a[1..] && b == [b[0]] + b[1..];
    }
  }
}
