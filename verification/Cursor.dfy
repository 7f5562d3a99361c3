/** The opaque pagination cursors of directory/handler.go. */
module Cursor {
  import opened Prelude
  import opened Base64
  import opened Decimal

  const PREFIX: string := "offset:"

  datatype CursorError = InvalidCursor

  /** Every character fits one byte. */
  predicate IsLatin(s: string) {
    forall i | 0 <= i < |s| :: s[i] as int < 256
  }

  function Bytes(s: string): (b: seq<byte>)
    requires IsLatin(s)
    ensures |b| == |s|
  {
    if s == "" then []
    else
      var b: byte := s[0] as int;
      [b] + Bytes(s[1..])
  }

  function Chars(b: seq<byte>): (s: string)
    ensures |s| == |b|
  {
    if b == [] then "" else [b[0] as char] + Chars(b[1..])
  }

  lemma {:induction false} CharsBytes(s: string)
    requires IsLatin(s)
    ensures Chars(Bytes(s)) == s
  {
    if s == "" {
    } else {
      CharsBytes(s[1..]);
      assert Bytes(s)[1..] == Bytes(s[1..]);
      assert s == [s[0]] + s[1..];
    }
  }

  lemma CursorTextIsAscii(offset: int)
    ensures IsLatin(PREFIX + PrintInt(offset))
  {
    var digits := Print(if offset < 0 then -offset else offset);
    assert forall i | 0 <= i < |digits| :: digits[i] in digits && IsDigit(digits[i]);
  }

  function EncodeCursor(offset: int): string {
    CursorTextIsAscii(offset);
    Encode(Bytes(PREFIX + PrintInt(offset)))
  }

  predicate IsBlank(c: char) {
    c == ' ' || c == '\t' || c == '\r' || c as int == 11 || c as int == 12
  }

  /** Blanks other than a line feed are skipped before a number. */
  function SkipBlanks(s: string): string {
    if s != "" && IsBlank(s[0]) then SkipBlanks(s[1..]) else s
  }

  /** fmt.Sscanf with format "offset:%d"; text after the number is ignored. */
  function ScanOffset(text: string): Option<int> {
    if PREFIX <= text then
      match ScanSigned(SkipBlanks(text[|PREFIX|..]))
      case None => None
      case Some((v, _)) => Some(v)
    else None
  }

  function DecodeCursor(cursor: string): Result<int, CursorError> {
    if cursor == "" then Ok(0)
    else
      match Decode(cursor)
      case None => Err(InvalidCursor)
      case Some(data) =>
        match ScanOffset(Chars(data))
        case None => Err(InvalidCursor)
        case Some(offset) => if offset < 0 then Err(InvalidCursor) else Ok(offset)
  }

  /** A decoded offset is never negative, whatever the client sent. */
  lemma DecodedOffsetIsNatural(cursor: string)
    ensures DecodeCursor(cursor).Ok? ==> 0 <= DecodeCursor(cursor).value <= MAX_INT
  {
  }

  /** Every 64-bit offset is read back from its cursor exactly when it is not negative. */
  lemma CursorRoundTrip(offset: int)
    requires MIN_INT <= offset <= MAX_INT
    ensures DecodeCursor(EncodeCursor(offset)) == if offset < 0 then Err(InvalidCursor) else Ok(offset)
    ensures EncodeCursor(offset) != ""
  {
    var number := PrintInt(offset);
    var text := PREFIX + number;
    CursorTextIsAscii(offset);
    RoundTrip(Bytes(text));
    CharsBytes(text);
    assert PREFIX <= text && text[|PREFIX|..] == number;
    ScanSignedPrintInt(offset);
    assert number[0] == '-' || IsDigit(number[0]);
    assert SkipBlanks(number) == number;
    assert |Bytes(text)| > 0;
  }

  lemma {:induction false} ByteAt(s: string, i: nat)
    requires IsLatin(s) && i < |s|
    ensures Bytes(s)[i] == s[i] as int
  {
    if i == 0 {
    } else {
      ByteAt(s[1..], i - 1);
    }
  }

  lemma BytesOfFirst()
    ensures IsLatin("offset:0") && Bytes("offset:0") == [111, 102, 102, 115, 101, 116, 58, 48]
  {
    var b: seq<byte> := [111, 102, 102, 115, 101, 116, 58, 48];
    forall i | 0 <= i < 8 ensures Bytes("offset:0")[i] == b[i] {
      ByteAt("offset:0", i);
    }
  }

  lemma GroupsOfFirst()
    ensures Quad(111, 102, 102) == "b2Zm" && Quad(115, 101, 116) == "c2V0" && Tail([58, 48]) == "OjA="
  {
  }

  /** The cursor of the first page, and that a missing one means the same. */
  lemma FirstCursors()
    ensures EncodeCursor(0) == "b2Zmc2V0OjA=" && DecodeCursor("") == Ok(0)
  {
    hide Bytes, Quad, Tail, Decode;
    PrintedNumbers();
    assert PREFIX + PrintInt(0) == "offset:0";
    BytesOfFirst();
    GroupsOfFirst();
    EncodeGroup(115, 101, 116, [58, 48]);
    EncodeGroup(111, 102, 102, [115, 101, 116, 58, 48]);
    assert [115, 101, 116] + [58, 48] == [115, 101, 116, 58, 48];
    assert [111, 102, 102] + [115, 101, 116, 58, 48] == [111, 102, 102, 115, 101, 116, 58, 48];
    assert "b2Zm" + ("c2V0" + "OjA=") == "b2Zmc2V0OjA=";
  }

  lemma {:induction false} BlanksAreSkipped(blanks: string, rest: string)
    requires forall c <- blanks :: c in {' ', '\t', '\r'} || c as int == 11 || c as int == 12
    requires rest == "" || !IsBlank(rest[0])
    ensures SkipBlanks(blanks + rest) == rest
  {
    if blanks == "" {
      assert blanks + rest == rest;
    } else {
      assert blanks[0] in blanks && (blanks + rest)[1..] == blanks[1..] + rest;
      assert forall c <- blanks[1..] :: c in blanks;
      BlanksAreSkipped(blanks[1..], rest);
    }
  }

  /** A cursor that no server made is read too: blanks before the number, a plus sign and anything but a digit behind it
      make no difference. */
  lemma ForeignCursorIsRead(offset: nat, blanks: string, sign: string, rest: string)
    requires offset <= MAX_INT && sign in {"", "+"} && (rest == "" || !IsDigit(rest[0]))
    requires forall c <- blanks :: c in {' ', '\t', '\r'} || c as int == 11 || c as int == 12
    requires IsLatin("offset:" + (blanks + (sign + Print(offset) + rest)))
    ensures DecodeCursor(Encode(Bytes("offset:" + (blanks + (sign + Print(offset) + rest))))) == Ok(offset)
  {
    hide Encode, Decode, ScanSigned, SkipBlanks, Bytes, Chars;
    var number := sign + Print(offset) + rest;
    var text := "offset:" + (blanks + number);
    RoundTrip(Bytes(text));
    CharsBytes(text);
    assert PREFIX <= text && text[|PREFIX|..] == blanks + number;
    assert Print(offset)[0] in Print(offset);
    assert number[0] == if sign == "" then Print(offset)[0] else sign[0];
    BlanksAreSkipped(blanks, number);
    ReadsSignedNumber(offset, sign, rest);
    EncodedIsNotEmpty(Bytes(text));
  }

  lemma EncodedIsNotEmpty(b: seq<byte>)
    requires b != []
    ensures Encode(b) != ""
  {
  }

  /** Distinct non-negative offsets have distinct cursors. */
  lemma CursorsInjective(m: int, n: int)
    requires 0 <= m <= MAX_INT && 0 <= n <= MAX_INT
    requires EncodeCursor(m) == EncodeCursor(n)
    ensures m == n
  {
    CursorRoundTrip(m);
    CursorRoundTrip(n);
  }
}
