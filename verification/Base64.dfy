/** The standard encoding of section 4 of RFC 4648 as Go's base64.StdEncoding reads and writes it. */
module Base64 {
  import opened Prelude
  import opened Sequences

  type byte = x: int | 0 <= x < 256

  function Symbol(v: int): char
    requires 0 <= v < 64
  {
    if v < 26 then ('A' as int + v) as char
    else if v < 52 then ('a' as int + v - 26) as char
    else if v < 62 then ('0' as int + v - 52) as char
    else if v == 62 then '+' else '/'
  }

  /** The value of an alphabet symbol, or -1. */
  function Sextet(c: char): (v: int)
    ensures -1 <= v < 64
    ensures 0 <= v ==> Symbol(v) == c
  {
    if 'A' <= c <= 'Z' then c as int - 'A' as int
    else if 'a' <= c <= 'z' then c as int - 'a' as int + 26
    else if '0' <= c <= '9' then c as int - '0' as int + 52
    else if c == '+' then 62
    else if c == '/' then 63
    else -1
  }

  lemma SymbolSextet(v: int)
    requires 0 <= v < 64
    ensures Sextet(Symbol(v)) == v
    ensures Symbol(v) !in {'=', '\r', '\n'}
  {
  }

  /** The four sextets of three bytes, and the three bytes of four sextets. */
  function Spread(a: byte, b: byte, c: byte): (int, int, int, int) {
    (a / 4, a % 4 * 16 + b / 16, b % 16 * 4 + c / 64, c % 64)
  }

  function Gather(x: int, y: int, z: int, w: int): (int, int, int) {
    (x * 4 + y / 16, y % 16 * 16 + z / 4, z % 4 * 64 + w)
  }

  lemma SpreadGather(a: byte, b: byte, c: byte)
    ensures var (x, y, z, w) := Spread(a, b, c);
            0 <= x < 64 && 0 <= y < 64 && 0 <= z < 64 && 0 <= w < 64 && Gather(x, y, z, w) == (a, b, c)
  {
  }

  lemma DivMod(high: int, low: int, m: int)
    requires m == 4 || m == 16 || m == 64
    requires 0 <= low < m
    ensures (high * m + low) / m == high && (high * m + low) % m == low
  {
  }

  lemma GatherSpread(x: int, y: int, z: int, w: int)
    requires 0 <= x < 64 && 0 <= y < 64 && 0 <= z < 64 && 0 <= w < 64
    ensures var (a, b, c) := Gather(x, y, z, w);
            0 <= a < 256 && 0 <= b < 256 && 0 <= c < 256 && Spread(a, b, c) == (x, y, z, w)
  {
    DivMod(x, y / 16, 4);
    DivMod(y % 16, z / 4, 16);
    DivMod(z % 4, w, 64);
  }

  /** The four symbols of a full group. */
  function Quad(a: byte, b: byte, c: byte): (q: string)
    ensures |q| == 4
  {
    SpreadGather(a, b, c);
    var (x, y, z, w) := Spread(a, b, c);
    [Symbol(x), Symbol(y), Symbol(z), Symbol(w)]
  }

  /** The padded group of the last one or two bytes. */
  function Tail(b: seq<byte>): (q: string)
    requires |b| == 1 || |b| == 2
    ensures |q| == 4
  {
    if |b| == 1 then
      SpreadGather(b[0], 0, 0);
      var (x, y, z, w) := Spread(b[0], 0, 0);
      [Symbol(x), Symbol(y), '=', '=']
    else
      SpreadGather(b[0], b[1], 0);
      var (x, y, z, w) := Spread(b[0], b[1], 0);
      [Symbol(x), Symbol(y), Symbol(z), '=']
  }

  function Encode(b: seq<byte>): string {
    if |b| == 0 then ""
    else if |b| < 3 then Tail(b)
    else Quad(b[0], b[1], b[2]) + Encode(b[3..])
  }

  predicate IsQuad(q: string)
    requires |q| == 4
  {
    0 <= Sextet(q[0]) && 0 <= Sextet(q[1]) && 0 <= Sextet(q[2]) && 0 <= Sextet(q[3])
  }

  predicate IsTail(q: string)
    requires |q| == 4
  {
    0 <= Sextet(q[0]) && 0 <= Sextet(q[1]) && (q[2] == '=' || 0 <= Sextet(q[2])) && q[3] == '='
  }

  function Unquad(q: string): (b: seq<byte>)
    requires |q| == 4 && IsQuad(q)
    ensures |b| == 3
  {
    GatherSpread(Sextet(q[0]), Sextet(q[1]), Sextet(q[2]), Sextet(q[3]));
    var (a, b, c) := Gather(Sextet(q[0]), Sextet(q[1]), Sextet(q[2]), Sextet(q[3]));
    [a, b, c]
  }

  function Untail(q: string): (b: seq<byte>)
    requires |q| == 4 && IsTail(q)
    ensures |b| == if q[2] == '=' then 1 else 2
  {
    var z := if q[2] == '=' then 0 else Sextet(q[2]);
    GatherSpread(Sextet(q[0]), Sextet(q[1]), z, 0);
    var (a, b, c) := Gather(Sextet(q[0]), Sextet(q[1]), z, 0);
    if q[2] == '=' then [a] else [a, b]
  }

  /** Decodes text without line breaks. Padding may end the text only; leftover bits are not checked. */
  function DecodeQuads(s: string): Option<seq<byte>> {
    if |s| == 0 then Some([])
    else if |s| < 4 then None
    else if IsQuad(s[..4]) then
      match DecodeQuads(s[4..])
      case None => None
      case Some(rest) => Some(Unquad(s[..4]) + rest)
    else if |s| == 4 && IsTail(s) then Some(Untail(s))
    else None
  }

  function NotLineBreak(): char -> bool {
    c => c != '\r' && c != '\n'
  }

  /** Carriage returns and line feeds are skipped wherever they stand. */
  function Decode(s: string): Option<seq<byte>> {
    DecodeQuads(Filter(s, NotLineBreak()))
  }

  lemma QuadUnquad(a: byte, b: byte, c: byte)
    ensures IsQuad(Quad(a, b, c)) && Unquad(Quad(a, b, c)) == [a, b, c]
    ensures forall d <- Quad(a, b, c) :: NotLineBreak()(d)
  {
    SpreadGather(a, b, c);
    var (x, y, z, w) := Spread(a, b, c);
    SymbolSextet(x);
    SymbolSextet(y);
    SymbolSextet(z);
    SymbolSextet(w);
  }

  lemma UnquadQuad(q: string)
    requires |q| == 4 && IsQuad(q)
    ensures var t := Unquad(q); Quad(t[0], t[1], t[2]) == q
  {
    GatherSpread(Sextet(q[0]), Sextet(q[1]), Sextet(q[2]), Sextet(q[3]));
  }

  /** The zero bits behind a final one or two bytes are what the decoder supplies for the padding. */
  lemma TailUntail(b: seq<byte>)
    requires |b| == 1 || |b| == 2
    ensures IsTail(Tail(b)) && !IsQuad(Tail(b)) && Untail(Tail(b)) == b
    ensures forall d <- Tail(b) :: NotLineBreak()(d)
  {
    var b1 := if |b| == 1 then 0 else b[1];
    SpreadGather(b[0], b1, 0);
    var (x, y, z, w) := Spread(b[0], b1, 0);
    SymbolSextet(x);
    SymbolSextet(y);
    SymbolSextet(z);
    assert w == 0;
    if |b| == 1 {
      assert z == 0;
      assert Untail(Tail(b)) == [Gather(x, y, 0, 0).0];
    }
  }

  lemma {:induction false} EncodeHasNoLineBreaks(b: seq<byte>)
    ensures forall c <- Encode(b) :: NotLineBreak()(c)
  {
    if b == [] {
    } else if |b| <= 2 {
      TailUntail(b);
    } else {
      QuadUnquad(b[0], b[1], b[2]);
      EncodeHasNoLineBreaks(b[3..]);
    }
  }

  lemma DecodeQuadsStep(q: string, t: string)
    requires |q| == 4 && IsQuad(q) && DecodeQuads(t).Some?
    ensures DecodeQuads(q + t) == Some(Unquad(q) + DecodeQuads(t).value)
  {
    assert (q + t)[..4] == q && (q + t)[4..] == t;
  }

  lemma {:induction false} DecodeQuadsEncode(b: seq<byte>)
    ensures DecodeQuads(Encode(b)) == Some(b)
  {
    if b == [] {
    } else if |b| <= 2 {
      TailUntail(b);
      assert Tail(b)[..4] == Tail(b);
    } else {
      QuadUnquad(b[0], b[1], b[2]);
      DecodeQuadsEncode(b[3..]);
      DecodeQuadsStep(Quad(b[0], b[1], b[2]), Encode(b[3..]));
      assert b == [b[0], b[1], b[2]] + b[3..];
    }
  }

  /** Decoding undoes encoding, for every byte string. */
  lemma RoundTrip(b: seq<byte>)
    ensures Decode(Encode(b)) == Some(b)
  {
    EncodeHasNoLineBreaks(b);
    FilterTrivial(Encode(b), NotLineBreak());
    DecodeQuadsEncode(b);
  }

  /** Carriage returns and line feeds in encoded text make no difference. */
  lemma LineBreaksAreSkipped(before: string, breaks: string, behind: string)
    requires forall c <- breaks :: c == '\r' || c == '\n'
    ensures Decode(before + breaks + behind) == Decode(before + behind)
  {
    hide DecodeQuads;
    FilterConcat(before + breaks, behind, NotLineBreak());
    FilterConcat(before, breaks, NotLineBreak());
    FilterConcat(before, behind, NotLineBreak());
    FilterTrivial(breaks, NotLineBreak());
    assert Filter(before, NotLineBreak()) + [] == Filter(before, NotLineBreak());
  }

  lemma GroupVectors()
    ensures Tail([102]) == "Zg==" && Tail([102, 111]) == "Zm8=" && Quad(102, 111, 111) == "Zm9v"
    ensures Tail([98]) == "Yg==" && Tail([98, 97]) == "YmE=" && Quad(98, 97, 114) == "YmFy"
    ensures Quad(251, 239, 190) == "++++" && Quad(255, 255, 255) == "////"
  {
  }

  /** Encoding a full group and what follows it. */
  lemma EncodeGroup(a: byte, b: byte, c: byte, rest: seq<byte>)
    ensures Encode([a, b, c] + rest) == Quad(a, b, c) + Encode(rest)
  {
    hide Quad;
    assert ([a, b, c] + rest)[3..] == rest;
  }

  /** The test vectors of section 10 of RFC 4648, and the last two symbols of its alphabet. */
  lemma Vectors()
    ensures Encode([]) == ""
    ensures Encode([102]) == "Zg==" && Encode([102, 111]) == "Zm8=" && Encode([102, 111, 111]) == "Zm9v"
    ensures Encode([102, 111, 111, 98]) == "Zm9vYg==" && Encode([102, 111, 111, 98, 97]) == "Zm9vYmE="
    ensures Encode([102, 111, 111, 98, 97, 114]) == "Zm9vYmFy"
    ensures Encode([251, 239, 190]) == "++++" && Encode([255, 255, 255]) == "////"
  {
    hide Quad, Tail;
    GroupVectors();
    EncodeGroup(102, 111, 111, []);
    EncodeGroup(102, 111, 111, [98]);
    EncodeGroup(102, 111, 111, [98, 97]);
    EncodeGroup(98, 97, 114, []);
    EncodeGroup(102, 111, 111, [98, 97, 114]);
    EncodeGroup(251, 239, 190, []);
    EncodeGroup(255, 255, 255, []);
    assert forall a: byte, b: byte, c: byte :: [a, b, c] + [] == [a, b, c];
    assert [102, 111, 111] + [98] == [102, 111, 111, 98];
    assert [102, 111, 111] + [98, 97] == [102, 111, 111, 98, 97];
    assert [102, 111, 111] + [98, 97, 114] == [102, 111, 111, 98, 97, 114];
  }

  lemma EncodeInjective(b: seq<byte>, c: seq<byte>)
    requires Encode(b) == Encode(c)
    ensures b == c
  {
    RoundTrip(b);
    RoundTrip(c);
  }

  /** No line breaks, and the bits that padding leaves over are zero. */
  predicate Canonical(s: string) {
    && (forall c <- s :: NotLineBreak()(c))
    && (|s| >= 4 && s[|s| - 1] == '=' ==>
          if s[|s| - 2] == '=' then Sextet(s[|s| - 3]) % 16 == 0 else Sextet(s[|s| - 2]) % 4 == 0)
  }

  /** Leftover bits below the last byte are lost: one byte keeps two bits of `y`, two keep four of `z`. */
  lemma LostBits(x: int, y: int, z: int)
    requires 0 <= x < 64 && 0 <= y < 64 && 0 <= z < 64
    ensures var (a, b, _) := Gather(x, y, z, 0);
            && 0 <= a < 256 && 0 <= b < 256
            && Spread(a, 0, 0) == (x, y / 16 * 16, 0, 0)
            && Spread(a, b, 0) == (x, y, z / 4 * 4, 0)
  {
    DivMod(x, y / 16, 4);
    DivMod(y % 16, z / 4, 16);
  }

  lemma UntailTail(q: string)
    requires |q| == 4 && IsTail(q)
    ensures Tail(Untail(q)) == q <==> if q[2] == '=' then Sextet(q[1]) % 16 == 0 else Sextet(q[2]) % 4 == 0
  {
    var x, y, z := Sextet(q[0]), Sextet(q[1]), if q[2] == '=' then 0 else Sextet(q[2]);
    GatherSpread(x, y, z, 0);
    LostBits(x, y, z);
    if q[2] == '=' {
      SymbolSextet(y / 16 * 16);
      assert Tail(Untail(q)) == [q[0], Symbol(y / 16 * 16), '=', '='];
      assert y / 16 * 16 == y <==> y % 16 == 0;
    } else {
      SymbolSextet(z / 4 * 4);
      assert Tail(Untail(q)) == [q[0], q[1], Symbol(z / 4 * 4), '='];
      assert z / 4 * 4 == z <==> z % 4 == 0;
    }
  }

  /** A full group in front changes neither the padding nor the line breaks of the rest. */
  lemma CanonicalBehindQuad(q: string, t: string)
    requires |q| == 4 && IsQuad(q) && (|t| == 0 || |t| >= 4)
    requires forall c <- q + t :: NotLineBreak()(c)
    ensures Canonical(q + t) <==> Canonical(t)
  {
    var s := q + t;
    assert forall c <- t :: c in s;
    if |t| == 0 {
      assert s[|s| - 1] == q[3] && Sextet('=') < 0;
    } else {
      assert s[|s| - 1] == t[|t| - 1] && s[|s| - 2] == t[|t| - 2] && s[|s| - 3] == t[|t| - 3];
    }
  }

  lemma EncodeTriple(t: seq<byte>, b: seq<byte>)
    requires |t| == 3
    ensures Encode(t + b) == Quad(t[0], t[1], t[2]) + Encode(b)
  {
    assert (t + b)[3..] == b;
  }

  lemma {:induction false} EncodeDecodeQuads(s: string)
    requires DecodeQuads(s).Some?
    requires forall c <- s :: NotLineBreak()(c)
    ensures Encode(DecodeQuads(s).value) == s <==> Canonical(s)
  {
    hide Quad, Unquad, Tail, Untail, Canonical, Sextet;
    if |s| == 0 {
      CanonicalEmpty();
    } else {
      if IsQuad(s[..4]) {
        var q, t := s[..4], s[4..];
        assert s == q + t && forall c <- t :: c in s;
        EncodeDecodeQuads(t);
        UnquadQuad(q);
        EncodeTriple(Unquad(q), DecodeQuads(t).value);
        CanonicalBehindQuad(q, t);
        var e := Encode(DecodeQuads(t).value);
        assert q + e == q + t <==> e == t by {
          assert (q + e)[4..] == e && (q + t)[4..] == t;
        }
      } else {
        CanonicalTail(s);
        UntailTail(s);
      }
    }
  }

  lemma CanonicalTail(q: string)
    requires |q| == 4 && IsTail(q) && forall c <- q :: NotLineBreak()(c)
    ensures Canonical(q) <==> if q[2] == '=' then Sextet(q[1]) % 16 == 0 else Sextet(q[2]) % 4 == 0
  {
  }

  lemma CanonicalEmpty()
    ensures Canonical("")
  {
  }

  /** Exactly the canonical texts are encodings: any other accepted text decodes but does not come back. */
  lemma EncodeUndoesDecodeIffCanonical(s: string)
    requires Decode(s).Some?
    ensures Encode(Decode(s).value) == s <==> Canonical(s)
  {
    if forall c <- s :: NotLineBreak()(c) {
      FilterTrivial(s, NotLineBreak());
      EncodeDecodeQuads(s);
    } else {
      EncodeHasNoLineBreaks(Decode(s).value);
    }
  }
}
