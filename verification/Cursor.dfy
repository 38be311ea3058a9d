/**
 * Page cursors as text: base64url (section 5 of RFC 4648) with the padding removed (section 3.2)
 * and put back, and the forgiving decoder of Python's base64 module, which skips what is not part of the
 * alphabet. The payload is a list of bytes; what it says is the concern of History.
 */
module Cursor {
  import opened Basics

  // A byte is four digits of two bits, a symbol's value three, the most significant first.
  type digit = d: int | 0 <= d < 4

  datatype Byte = Byte(a: digit, b: digit, c: digit, d: digit)

  datatype Sextet = Sextet(a: digit, b: digit, c: digit)

  const ZERO: Byte := Byte(0, 0, 0, 0)

  function Number(v: Sextet): (n: int)
    ensures 0 <= n < 64
  {
    (v.a as int * 4 + v.b as int) * 4 + v.c as int
  }

  function FromNumber(n: int): Sextet
    requires 0 <= n < 64
  {
    Sextet(n / 4 / 4, n / 4 % 4, n % 4)
  }

  // The URL- and filename-safe alphabet.
  function Letter(n: int): char
    requires 0 <= n < 64
  {
    if n < 26 then ('A' as int + n) as char
    else if n < 52 then ('a' as int + n - 26) as char
    else if n < 62 then ('0' as int + n - 52) as char
    else if n == 62 then '-' else '_'
  }

  // The decoder translates the two URL-safe symbols to '+' and '/' first, so it takes both alphabets.
  function LetterNumber(c: char): (n: Option<int>)
    ensures n.Some? ==> 0 <= n.value < 64
  {
    if 'A' <= c <= 'Z' then Some(c as int - 'A' as int)
    else if 'a' <= c <= 'z' then Some(c as int - 'a' as int + 26)
    else if '0' <= c <= '9' then Some(c as int - '0' as int + 52)
    else if c == '-' || c == '+' then Some(62)
    else if c == '_' || c == '/' then Some(63)
    else None
  }

  function Symbol(v: Sextet): char {
    Letter(Number(v))
  }

  /**
   * The table of section 5 of RFC 4648: 0 is 'A', 26 is 'a', 52 is '0', each of the three runs goes on by one, and the
   * last two are '-' and '_'. The decoder takes exactly these symbols and '+' and '/'.
   */
  lemma {:induction false} SymbolTable(c: char, n: int)
    requires 0 <= n < 64
    ensures Letter(0) == 'A' && Letter(25) == 'Z' && Letter(26) == 'a' && Letter(51) == 'z'
    ensures Letter(52) == '0' && Letter(61) == '9' && Letter(62) == '-' && Letter(63) == '_'
    ensures n !in {25, 51, 61, 62, 63} ==> Letter(n + 1) as int == Letter(n) as int + 1
    ensures LetterNumber(c) == Some(n) <==> c == Letter(n) || (n == 62 && c == '+') || (n == 63 && c == '/')
    ensures FromNumber(n) == Sextet(n / 16, n / 4 % 4, n % 4)
  {
  }

  // What a character is to the decoder.
  datatype Token = Sym(v: Sextet) | Fill | Foreign

  function TokenOf(c: char): Token {
    if c == '=' then Fill
    else
      match LetterNumber(c)
      case None => Foreign
      case Some(n) => Sym(FromNumber(n))
  }

  function Tokens(s: string): (t: seq<Token>)
    ensures |t| == |s|
  {
    seq(|s|, k requires 0 <= k < |s| => TokenOf(s[k]))
  }

  // The four symbols of three bytes.
  function Six0(x: Byte): Sextet { Sextet(x.a, x.b, x.c) }
  function Six1(x: Byte, y: Byte): Sextet { Sextet(x.d, y.a, y.b) }
  function Six2(y: Byte, z: Byte): Sextet { Sextet(y.c, y.d, z.a) }
  function Six3(z: Byte): Sextet { Sextet(z.b, z.c, z.d) }

  // The three bytes of four symbols.
  function Byte0(v: Sextet, w: Sextet): Byte { Byte(v.a, v.b, v.c, w.a) }
  function Byte1(w: Sextet, x: Sextet): Byte { Byte(w.b, w.c, x.a, x.b) }
  function Byte2(x: Sextet, y: Sextet): Byte { Byte(x.c, y.a, y.b, y.c) }

  // ---------- Encoding ----------

  // The symbols' values: three bytes make four, the last bytes two or three.
  function Sextets(b: seq<Byte>): seq<Sextet>
    decreases |b|
  {
    if |b| == 0 then []
    else if |b| == 1 then [Six0(b[0]), Six1(b[0], ZERO)]
    else if |b| == 2 then [Six0(b[0]), Six1(b[0], b[1]), Six2(b[1], ZERO)]
    else [Six0(b[0]), Six1(b[0], b[1]), Six2(b[1], b[2]), Six3(b[2])] + Sextets(b[3..])
  }

  function Symbols(d: seq<Sextet>): (s: string)
    ensures |s| == |d|
  {
    seq(|d|, k requires 0 <= k < |d| => Symbol(d[k]))
  }

  // How many characters fill the last group of four.
  function Missing(n: int): nat {
    (-n) % 4
  }

  function Padding(n: int): string {
    seq(Missing(n), _ => '=')
  }

  function Encode(b: seq<Byte>): string {
    Symbols(Sextets(b)) + Padding(|Sextets(b)|)
  }

  // The text without its trailing padding characters.
  function Strip(s: string): string
    decreases |s|
  {
    if s != [] && s[|s| - 1] == '=' then Strip(s[..|s| - 1]) else s
  }

  // Padding for the length of the whole text; Python's % and Dafny's agree for a positive divisor.
  function Pad(s: string): string {
    s + Padding(|s|)
  }

  function EncodeCursor(payload: seq<Byte>): string {
    Strip(Encode(payload))
  }

  // ---------- Decoding ----------

  // What four symbols, or the two or three left over, say; the bits beyond the last byte are dropped.
  function Bytes(d: seq<Sextet>): seq<Byte>
    decreases |d|
  {
    if |d| < 2 then []
    else if |d| == 2 then [Byte0(d[0], d[1])]
    else if |d| == 3 then [Byte0(d[0], d[1]), Byte1(d[1], d[2])]
    else [Byte0(d[0], d[1]), Byte1(d[1], d[2]), Byte2(d[2], d[3])] + Bytes(d[4..])
  }

  // The decoder's pass: `data` has been read, and `pads` padding characters since the last of it. Padding that
  // completes a group ends the pass; other padding and foreign characters are skipped.
  function Scan(t: seq<Token>, data: seq<Sextet>, pads: nat): Option<seq<Sextet>>
    decreases |t|
  {
    if t == [] then if |data| % 4 == 0 then Some(data) else None
    else
      match t[0]
      case Foreign => Scan(t[1..], data, pads)
      case Sym(v) => Scan(t[1..], data + [v], 0)
      case Fill =>
        if |data| % 4 < 2 then Scan(t[1..], data, pads)
        else if |data| % 4 + pads + 1 >= 4 then Some(data)
        else Scan(t[1..], data, pads + 1)
  }

  predicate Ascii(s: string) {
    forall k :: 0 <= k < |s| ==> s[k] as int < 128
  }

  function Decode(s: string): Option<seq<Byte>> {
    if !Ascii(s) then None
    else
      match Scan(Tokens(s), [], 0)
      case None => None
      case Some(data) => Some(Bytes(data))
  }

  // None is the INVALID_CURSOR error.
  function DecodeCursor(cursor: string): Option<seq<Byte>> {
    Decode(Pad(cursor))
  }

  // ---------- What a text holds ----------

  // The values of its symbols.
  function Data(t: seq<Token>): (d: seq<Sextet>)
    decreases |t|
  {
    if t == [] then []
    else Data(t[..|t| - 1]) + if t[|t| - 1].Sym? then [t[|t| - 1].v] else []
  }

  // The padding characters after its last symbol.
  function TrailingPads(t: seq<Token>): nat
    decreases |t|
  {
    if t == [] || t[|t| - 1].Sym? then 0
    else TrailingPads(t[..|t| - 1]) + if t[|t| - 1].Fill? then 1 else 0
  }

  // The character at n completes a group with padding.
  predicate Closes(t: seq<Token>, n: nat) {
    && n < |t| && t[n].Fill? && |Data(t[..n])| % 4 >= 2
    && |Data(t[..n])| % 4 + TrailingPads(t[..n]) + 1 >= 4
  }

  predicate FirstClose(t: seq<Token>, n: nat) {
    Closes(t, n) && forall m :: 0 <= m < n ==> !Closes(t, m)
  }

  // Where the pass stands after n characters, if no padding has ended it.
  function ScanAt(t: seq<Token>, n: nat): Option<seq<Sextet>>
    requires n <= |t|
  {
    Scan(t[n..], Data(t[..n]), if |Data(t[..n])| % 4 < 2 then 0 else TrailingPads(t[..n]))
  }

  lemma ScanStep(t: seq<Token>, n: nat)
    requires n < |t|
    ensures ScanAt(t, n) == if Closes(t, n) then Some(Data(t[..n])) else ScanAt(t, n + 1)
  {
    assert t[..n + 1][..n] == t[..n] && t[n..][0] == t[n] && t[n..][1..] == t[n + 1..];
    assert Data(t[..n]) + [] == Data(t[..n]);
  }

  lemma {:induction false} ScanOn(t: seq<Token>, n: nat, m: nat)
    requires n <= m <= |t| && forall k :: n <= k < m ==> !Closes(t, k)
    ensures ScanAt(t, n) == ScanAt(t, m)
    decreases m - n
  {
    if n < m {
      ScanStep(t, n);
      ScanOn(t, n + 1, m);
    }
  }

  // The pass ends at the first closing character with the data before it, and else with all data if it is whole.
  lemma {:induction false} ScanEnds(t: seq<Token>)
    ensures forall n: nat :: FirstClose(t, n) ==> Scan(t, [], 0) == Some(Data(t[..n]))
    ensures (forall n :: 0 <= n < |t| ==> !Closes(t, n)) ==>
              Scan(t, [], 0) == if |Data(t)| % 4 == 0 then Some(Data(t)) else None
  {
    assert t[..0] == [] && t[0..] == t && Data(t[..0]) == [];
    forall n: nat | FirstClose(t, n)
      ensures Scan(t, [], 0) == Some(Data(t[..n]))
    {
      ScanOn(t, 0, n);
      ScanStep(t, n);
    }
    if forall n :: 0 <= n < |t| ==> !Closes(t, n) {
      ScanOn(t, 0, |t|);
      assert t[..|t|] == t && t[|t|..] == [];
    }
  }

  lemma {:induction false} FirstOf(t: seq<Token>, n: nat) returns (m: nat)
    requires Closes(t, n)
    ensures FirstClose(t, m)
    decreases n
  {
    if k: nat :| k < n && Closes(t, k) {
      m := FirstOf(t, k);
    } else {
      m := n;
    }
  }

  // ---------- Acceptance ----------

  function Fills(k: nat): seq<Token> {
    seq(k, _ => Fill)
  }

  lemma {:induction false} DataOfPadded(t: seq<Token>, k: nat)
    ensures Data(t + Fills(k)) == Data(t)
    ensures TrailingPads(t + Fills(k)) == TrailingPads(t) + k
    decreases k
  {
    var p := t + Fills(k);
    if k == 0 {
      assert p == t;
    } else {
      assert p[..|p| - 1] == t + Fills(k - 1);
      DataOfPadded(t, k - 1);
    }
  }

  lemma TokensOfPadded(s: string)
    ensures Tokens(Pad(s)) == Tokens(s) + Fills(Missing(|s|))
    ensures Ascii(Pad(s)) <==> Ascii(s)
  {
    var p := Pad(s);
    assert forall k :: 0 <= k < |s| ==> p[k] == s[k];
    assert forall k :: |s| <= k < |p| ==> p[k] == '=';
  }

  /**
   * Acceptance, for every text: it is decoded if and only if it is ASCII and, once padded, either some padding
   * character completes a group, or the number of its symbols is a multiple of four.
   */
  lemma {:induction false} CursorAccepted(cursor: string)
    ensures DecodeCursor(cursor).Some? <==>
              && Ascii(cursor)
              && ((exists n: nat :: Closes(Tokens(Pad(cursor)), n)) || |Data(Tokens(cursor))| % 4 == 0)
  {
    var t := Tokens(Pad(cursor));
    TokensOfPadded(cursor);
    ScanEnds(t);
    DataOfPadded(Tokens(cursor), Missing(|cursor|));
    if n: nat :| Closes(t, n) {
      var m := FirstOf(t, n);
    }
  }

  lemma {:induction false} NoPads(t: seq<Token>)
    requires Fill !in t
    ensures TrailingPads(t) == 0
    decreases |t|
  {
    if t != [] {
      NoPads(t[..|t| - 1]);
    }
  }

  // Of a text without padding characters, only the added ones can close a group, and the last does so first.
  lemma ClosesPlain(t: seq<Token>, k: nat, n: nat)
    requires Fill !in t && n < |t| + k
    ensures Closes(t + Fills(k), n) <==> |t| <= n && |Data(t)| % 4 >= 2 && |Data(t)| % 4 + n - |t| + 1 >= 4
  {
    var p := t + Fills(k);
    if n < |t| {
      assert p[n] == t[n] && t[n] in t;
    } else {
      assert p[..n] == t + Fills(n - |t|);
      DataOfPadded(t, n - |t|);
      NoPads(t);
    }
  }

  predicate Whole(symbols: nat, pads: nat) {
    symbols % 4 == 0 || (symbols % 4 >= 2 && symbols % 4 + pads >= 4)
  }

  // The pass over tokens without padding, followed by padding.
  lemma {:induction false} ScanPlain(t: seq<Token>, k: nat)
    requires Fill !in t
    ensures Scan(t + Fills(k), [], 0) == if Whole(|Data(t)|, k) then Some(Data(t)) else None
  {
    var p := t + Fills(k);
    ScanEnds(p);
    DataOfPadded(t, k);
    forall n: nat | n < |p| { ClosesPlain(t, k, n); }
    if n: nat :| Closes(p, n) {
      var m := FirstOf(p, n);
      assert p[..m] == t + Fills(m - |t|);
      DataOfPadded(t, m - |t|);
    } else if k > 0 {
      assert !Closes(p, |p| - 1);
    }
  }

  lemma PlainTokens(s: string)
    ensures Fill in Tokens(s) <==> '=' in s
  {
    if '=' in s {
      var k :| 0 <= k < |s| && s[k] == '=';
      assert Tokens(s)[k] == Fill;
    }
  }

  /**
   * A text without padding characters is decoded if and only if it is ASCII and its symbols, with the padding
   * for the length of the whole text, fill their last group; and then to what its symbols say, whatever
   * other characters stand between them.
   */
  lemma {:induction false} PlainCursor(cursor: string)
    requires '=' !in cursor
    ensures DecodeCursor(cursor)
         == if Ascii(cursor) && Whole(|Data(Tokens(cursor))|, Missing(|cursor|)) then Some(Bytes(Data(Tokens(cursor))))
            else None
  {
    PlainTokens(cursor);
    TokensOfPadded(cursor);
    ScanPlain(Tokens(cursor), Missing(|cursor|));
  }

  predicate InAlphabet(s: string) {
    forall k :: 0 <= k < |s| ==> TokenOf(s[k]).Sym?
  }

  lemma {:induction false} AllData(t: seq<Token>)
    requires forall k :: 0 <= k < |t| ==> t[k].Sym?
    ensures |Data(t)| == |t|
    decreases |t|
  {
    if t != [] {
      AllData(t[..|t| - 1]);
    }
  }

  lemma AlphabetIsPlain(s: string)
    requires InAlphabet(s)
    ensures '=' !in s && Ascii(s)
  {
  }

  /** A text of symbols alone is decoded unless it is one symbol over a whole group. */
  lemma {:induction false} AlphabetAccepted(cursor: string)
    requires InAlphabet(cursor)
    ensures DecodeCursor(cursor).Some? <==> |cursor| % 4 != 1
  {
    AlphabetIsPlain(cursor);
    AllData(Tokens(cursor));
    NeverOne(|cursor|);
    PlainCursor(cursor);
  }

  // ---------- Round trip ----------

  lemma LetterRoundTrip(n: int)
    requires 0 <= n < 64
    ensures LetterNumber(Letter(n)) == Some(n) && Letter(n) != '='
  {
  }

  lemma NumberRoundTrip(v: Sextet)
    ensures FromNumber(Number(v)) == v
  {
    LastDigit(v.a as int * 4 + v.b as int, v.c);
    LastDigit(v.a as int, v.b);
  }

  lemma LastDigit(high: int, low: digit)
    ensures (high * 4 + low as int) / 4 == high && (high * 4 + low as int) % 4 == low as int
  {
  }

  lemma SymbolToken(v: Sextet)
    ensures TokenOf(Symbol(v)) == Sym(v)
  {
    LetterRoundTrip(Number(v));
    NumberRoundTrip(v);
  }

  function Syms(d: seq<Sextet>): (t: seq<Token>)
    ensures |t| == |d|
  {
    seq(|d|, k requires 0 <= k < |d| => Sym(d[k]))
  }

  lemma TokensOfSymbols(d: seq<Sextet>)
    ensures Tokens(Symbols(d)) == Syms(d) && InAlphabet(Symbols(d)) && '=' !in Symbols(d)
  {
    forall k | 0 <= k < |d|
      ensures TokenOf(Symbols(d)[k]) == Sym(d[k])
    {
      SymbolToken(d[k]);
    }
    AlphabetIsPlain(Symbols(d));
  }

  lemma {:induction false} DataOfSyms(d: seq<Sextet>)
    ensures Data(Syms(d)) == d
    decreases |d|
  {
    if d != [] {
      assert Syms(d)[..|d| - 1] == Syms(d[..|d| - 1]);
      DataOfSyms(d[..|d| - 1]);
    }
  }

  lemma {:induction false} StripPadding(core: string, n: nat)
    requires '=' !in core
    ensures Strip(core + seq(n, _ => '=')) == core
    decreases n
  {
    var s := core + seq(n, _ => '=');
    if n == 0 {
      assert s == core;
    } else {
      assert s[..|s| - 1] == core + seq(n - 1, _ => '=');
      StripPadding(core, n - 1);
    }
  }

  lemma {:induction false} SextetCount(b: seq<Byte>)
    ensures |Sextets(b)| == (4 * |b| + 2) / 3 && |Sextets(b)| % 4 != 1
    decreases |b|
  {
    if |b| >= 3 {
      SextetCount(b[3..]);
    }
  }

  lemma {:induction false} BytesOfSextets(b: seq<Byte>)
    ensures Bytes(Sextets(b)) == b
    decreases |b|
  {
    if |b| < 3 {
      BytesOfFew(b);
    } else {
      BytesOfSextets(b[3..]);
      BytesOfGroup(Six0(b[0]), Six1(b[0], b[1]), Six2(b[1], b[2]), Six3(b[2]), Sextets(b[3..]));
      assert b == [b[0], b[1], b[2]] + b[3..];
    }
  }

  lemma BytesOfFew(b: seq<Byte>)
    requires |b| < 3
    ensures Bytes(Sextets(b)) == b
  {
  }

  lemma BytesOfGroup(v: Sextet, w: Sextet, x: Sextet, y: Sextet, rest: seq<Sextet>)
    ensures Bytes([v, w, x, y] + rest) == [Byte0(v, w), Byte1(w, x), Byte2(x, y)] + Bytes(rest)
  {
    assert ([v, w, x, y] + rest)[4..] == rest;
  }

  lemma Stripped(payload: seq<Byte>)
    ensures EncodeCursor(payload) == Symbols(Sextets(payload))
  {
    TokensOfSymbols(Sextets(payload));
    StripPadding(Symbols(Sextets(payload)), Missing(|Sextets(payload)|));
  }

  /** A cursor decodes to the payload it was made from, for every payload. */
  lemma {:induction false} CursorRoundTrip(payload: seq<Byte>)
    ensures DecodeCursor(EncodeCursor(payload)) == Some(payload)
  {
    var d := Sextets(payload);
    Stripped(payload);
    TokensOfSymbols(d);
    DataOfSyms(d);
    BytesOfSextets(payload);
    SextetCount(payload);
    NeverOne(|d|);
    AlphabetIsPlain(Symbols(d));
    PlainCursor(Symbols(d));
  }

  /** A cursor is made of alphabet symbols alone, four for three bytes and two or three for the bytes left over. */
  lemma {:induction false} CursorAlphabet(payload: seq<Byte>)
    ensures InAlphabet(EncodeCursor(payload))
  {
    Stripped(payload);
    TokensOfSymbols(Sextets(payload));
  }

  lemma {:induction false} CursorLength(payload: seq<Byte>)
    ensures |EncodeCursor(payload)| == (4 * |payload| + 2) / 3
  {
    Stripped(payload);
    SextetCount(payload);
  }

  lemma NeverOne(n: nat)
    ensures n % 4 != 1 <==> Whole(n, Missing(n))
  {
    MissingIs(n);
  }

  lemma MissingIs(n: nat)
    ensures Missing(n) == if n % 4 == 0 then 0 else 4 - n % 4
  {
    var q, r := n / 4, n % 4;
    assert 0 - n == 4 * (if r == 0 then 0 - q else -1 - q) + if r == 0 then 0 else 4 - r;
  }

  /** Different payloads never share a cursor. */
  lemma {:induction false} CursorsDistinct(a: seq<Byte>, b: seq<Byte>)
    requires EncodeCursor(a) == EncodeCursor(b)
    ensures a == b
  {
    CursorRoundTrip(a);
    CursorRoundTrip(b);
  }

  /** What is not a symbol is skipped: a cursor with four foreign ASCII characters put in anywhere says the same. */
  lemma {:induction false} JunkIsSkipped(before: string, junk: string, after: string)
    requires |junk| == 4 && Ascii(junk) && forall k :: 0 <= k < 4 ==> TokenOf(junk[k]) == Foreign
    requires '=' !in before && '=' !in after
    ensures DecodeCursor(before + junk + after) == DecodeCursor(before + after)
  {
    TokensJoin(before, junk);
    TokensJoin(before + junk, after);
    TokensJoin(before, after);
    DataSkips(Tokens(before), Tokens(junk), Tokens(after));
    PlainTokens(junk);
    SameText(before + junk + after, before + after);
  }

  lemma TokensJoin(s: string, u: string)
    ensures Tokens(s + u) == Tokens(s) + Tokens(u)
    ensures Ascii(s + u) <==> Ascii(s) && Ascii(u)
  {
    var all := s + u;
    assert forall k :: 0 <= k < |s| ==> all[k] == s[k];
    assert forall k :: 0 <= k < |u| ==> all[|s| + k] == u[k];
  }

  lemma DataSkips(t: seq<Token>, junk: seq<Token>, u: seq<Token>)
    requires forall k :: 0 <= k < |junk| ==> junk[k] == Foreign
    ensures Data(t + junk + u) == Data(t + u)
  {
    DataJoin(t, junk);
    DataJoin(t + junk, u);
    DataJoin(t, u);
    NoData(junk);
    assert Data(t) + [] == Data(t);
  }

  lemma SameText(s: string, u: string)
    requires '=' !in s && '=' !in u && Data(Tokens(s)) == Data(Tokens(u)) && Ascii(s) == Ascii(u) && |s| == |u| + 4
    ensures DecodeCursor(s) == DecodeCursor(u)
  {
    FourMore(|u|);
    PlainCursor(s);
    PlainCursor(u);
  }

  lemma FourMore(n: nat)
    ensures Missing(n + 4) == Missing(n)
  {
    MissingIs(n);
    MissingIs(n + 4);
  }

  lemma {:induction false} DataJoin(t: seq<Token>, u: seq<Token>)
    ensures Data(t + u) == Data(t) + Data(u)
    decreases |u|
  {
    if u == [] {
      assert t + u == t;
    } else {
      assert (t + u)[..|t + u| - 1] == t + u[..|u| - 1];
      DataJoin(t, u[..|u| - 1]);
    }
  }

  lemma {:induction false} NoData(t: seq<Token>)
    requires forall k :: 0 <= k < |t| ==> t[k] == Foreign
    ensures Data(t) == []
    decreases |t|
  {
    if t != [] {
      NoData(t[..|t| - 1]);
    }
  }

  // ---------- The test vectors of section 10 of RFC 4648 ----------

  // The bytes 0x66 and 0x6F, 0x62, 0x61, 0x72.
  const F := Byte(1, 2, 1, 2)
  const O := Byte(1, 2, 3, 3)
  const B := Byte(1, 2, 0, 2)
  const A := Byte(1, 2, 0, 1)
  const R := Byte(1, 3, 0, 2)

  lemma TextOfThree(x: Byte, y: Byte, z: Byte)
    ensures Sextets([x, y, z]) == [Six0(x), Six1(x, y), Six2(y, z), Six3(z)]
  {
    assert [x, y, z][3..] == [];
  }

  /** "f", "fo" and "foo" are "Zg", "Zm8" and "Zm9v" as cursors, and three bytes more continue "YmFy". */
  lemma {:induction false} TestVectors()
    ensures EncodeCursor([]) == ""
    ensures EncodeCursor([F]) == "Zg"
    ensures EncodeCursor([F, O]) == "Zm8"
    ensures EncodeCursor([F, O, O]) == "Zm9v"
    ensures EncodeCursor([F, O, O, B, A, R]) == "Zm9vYmFy"
  {
    TextOfThree(F, O, O);
    TextOfThree(B, A, R);
    assert [F, O, O, B, A, R][3..] == [B, A, R];
    Stripped([]);
    Stripped([F]);
    Stripped([F, O]);
    Stripped([F, O, O]);
    Stripped([F, O, O, B, A, R]);
    assert Symbols([]) == "";
    assert Symbols([Six0(F), Six1(F, ZERO)]) == "Zg";
    assert Symbols([Six0(F), Six1(F, O), Six2(O, ZERO)]) == "Zm8";
    assert Symbols([Six0(F), Six1(F, O), Six2(O, O), Six3(O)]) == "Zm9v";
    assert Symbols([Six0(F), Six1(F, O), Six2(O, O), Six3(O), Six0(B), Six1(B, A), Six2(A, R), Six3(R)]) == "Zm9vYmFy";
  }
}
