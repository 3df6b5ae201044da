/** Message identifiers: sixteen random bytes stamped as a version 4 UUID,
    their text form, and the parser that feeds the database column.  The text
    form is also what PostgreSQL prints for a uuid column cast to text. */
module MessageId {
  import opened Contract

  type Byte = bv8

  /** A value of a PostgreSQL uuid column. */
  type Uuid = v: seq<Byte> | |v| == 16 witness [0, 0, 0, 0, 0, 0, 0, 0, 0, 0, 0, 0, 0, 0, 0, 0]

  // ---------- encoding/hex ----------

  function HexDigit(n: Byte): char
    requires n < 16
  {
    if n == 0 then '0' else if n == 1 then '1' else if n == 2 then '2' else if n == 3 then '3'
    else if n == 4 then '4' else if n == 5 then '5' else if n == 6 then '6' else if n == 7 then '7'
    else if n == 8 then '8' else if n == 9 then '9' else if n == 10 then 'a' else if n == 11 then 'b'
    else if n == 12 then 'c' else if n == 13 then 'd' else if n == 14 then 'e' else 'f'
  }

  /** Decoding accepts both cases. */
  function HexValue(c: char): Option<Byte>
  {
    if c == '0' then Some(0) else if c == '1' then Some(1) else if c == '2' then Some(2) else if c == '3' then Some(3)
    else if c == '4' then Some(4) else if c == '5' then Some(5) else if c == '6' then Some(6) else if c == '7' then Some(7)
    else if c == '8' then Some(8) else if c == '9' then Some(9)
    else if c == 'a' || c == 'A' then Some(10) else if c == 'b' || c == 'B' then Some(11)
    else if c == 'c' || c == 'C' then Some(12) else if c == 'd' || c == 'D' then Some(13)
    else if c == 'e' || c == 'E' then Some(14) else if c == 'f' || c == 'F' then Some(15)
    else None
  }

  function EncodeHex(bytes: seq<Byte>): (s: string)
    ensures |s| == 2 * |bytes|
  {
    if bytes == [] then ""
    else [HexDigit(bytes[0] >> 4), HexDigit(bytes[0] & 0x0f)] + EncodeHex(bytes[1..])
  }

  function DecodeHex(s: string): Option<seq<Byte>>
  {
    if s == "" then Some([])
    else if |s| == 1 then None
    else
      var hi, lo, rest := HexValue(s[0]), HexValue(s[1]), DecodeHex(s[2..]);
      if hi.Some? && lo.Some? && rest.Some? then Some([(hi.value << 4) | lo.value] + rest.value) else None
  }

  // ---------- formatting and parsing ----------

  function Dash(group: string, rest: string): string
  {
    group + "-" + rest
  }

  function FormatId(v: Uuid): (s: string)
    ensures |s| == 36
  {
    Dash(EncodeHex(v[0..4]), Dash(EncodeHex(v[4..6]), Dash(EncodeHex(v[6..8]),
      Dash(EncodeHex(v[8..10]), EncodeHex(v[10..16])))))
  }

  function StripDashes(s: string): string
  {
    if s == "" then "" else (if s[0] == '-' then "" else [s[0]]) + StripDashes(s[1..])
  }

  function ParseId(s: string): Option<Uuid>
  {
    match DecodeHex(StripDashes(s))
    case Some(raw) => if |raw| == 16 then Some(raw) else None
    case None => None
  }

  predicate IsLowerHex(c: char)
  {
    '0' <= c <= '9' || 'a' <= c <= 'f'
  }

  predicate IsDashPosition(i: int)
  {
    i == 8 || i == 13 || i == 18 || i == 23
  }

  /** Lower-case 8-4-4-4-12, the form section 4 of RFC 9562 prints. */
  predicate Canonical(s: string)
  {
    && |s| == 36
    && forall i :: 0 <= i < 36 ==> if IsDashPosition(i) then s[i] == '-' else IsLowerHex(s[i])
  }

  // ---------- lemmas ----------

  lemma HexTable()
    ensures [HexDigit(0), HexDigit(1), HexDigit(2), HexDigit(3), HexDigit(4), HexDigit(5), HexDigit(6), HexDigit(7),
             HexDigit(8), HexDigit(9), HexDigit(10), HexDigit(11), HexDigit(12), HexDigit(13), HexDigit(14), HexDigit(15)]
            == "0123456789abcdef"
  {
  }

  lemma {:induction false} EncodeAt(bytes: seq<Byte>, k: nat)
    requires k < |bytes|
    ensures EncodeHex(bytes)[2 * k..2 * k + 2] == EncodeHex([bytes[k]])
  {
    if k == 0 {
      assert [bytes[0]][1..] == [] && EncodeHex([]) == "";
    } else {
      EncodeAt(bytes[1..], k - 1);
      assert EncodeHex(bytes)[2..] == EncodeHex(bytes[1..]);
      assert EncodeHex(bytes)[2 * k..2 * k + 2] == EncodeHex(bytes)[2..][2 * (k - 1)..2 * (k - 1) + 2];
    }
  }

  /** Where the k-th byte shows in the text: after the dashes before it. */
  function Place(k: nat): nat
  {
    2 * k + if k < 4 then 0 else if k < 6 then 1 else if k < 8 then 2 else if k < 10 then 3 else 4
  }

  lemma GroupsAt(a: string, b: string, c: string, d: string, e: string)
    requires |a| == 8 && |b| == |c| == |d| == 4 && |e| == 12
    ensures var s := Dash(a, Dash(b, Dash(c, Dash(d, e))));
            && |s| == 36
            && s[0..8] == a && s[9..13] == b && s[14..18] == c && s[19..23] == d && s[24..36] == e
  {
  }

  lemma SliceOfSlice(s: string, g: string, from: nat, to: nat, i: nat)
    requires from <= to <= |s| && s[from..to] == g && i + 2 <= to - from
    ensures s[from + i..from + i + 2] == g[i..i + 2]
  {
    assert s[from..to][i] == s[from + i] && s[from..to][i + 1] == s[from + i + 1];
  }

  /** Byte by byte, in order, with the dashes in between. */
  lemma FormatShows(v: Uuid, k: nat)
    requires k < 16
    ensures FormatId(v)[Place(k)..Place(k) + 2] == EncodeHex([v[k]])
  {
    var from, to, at := 0, 4, 0;
    if k >= 10 {
      from, to, at := 10, 16, 24;
    } else if k >= 8 {
      from, to, at := 8, 10, 19;
    } else if k >= 6 {
      from, to, at := 6, 8, 14;
    } else if k >= 4 {
      from, to, at := 4, 6, 9;
    }
    var s, i := FormatId(v), k - from;
    EncodeAt(v[from..to], i);
    assert v[from..to][i] == v[k];
    GroupsAt(EncodeHex(v[0..4]), EncodeHex(v[4..6]), EncodeHex(v[6..8]), EncodeHex(v[8..10]), EncodeHex(v[10..16]));
    hide EncodeHex, Dash;
    assert s[at..at + 2 * (to - from)] == EncodeHex(v[from..to]);
    SliceOfSlice(s, EncodeHex(v[from..to]), at, at + 2 * (to - from), 2 * i);
  }

  lemma DigitRoundTrip(n: Byte)
    requires n < 16
    ensures HexValue(HexDigit(n)) == Some(n) && IsLowerHex(HexDigit(n))
  {
  }

  lemma ValueRoundTrip(c: char)
    requires IsLowerHex(c)
    ensures HexValue(c).Some? && HexValue(c).value < 16 && HexDigit(HexValue(c).value) == c
  {
  }

  lemma JoinNibbles(b: Byte)
    ensures ((b >> 4) << 4) | (b & 0x0f) == b && b >> 4 < 16 && b & 0x0f < 16
  {
  }

  lemma SplitNibbles(hi: Byte, lo: Byte)
    requires hi < 16 && lo < 16
    ensures ((hi << 4) | lo) >> 4 == hi && ((hi << 4) | lo) & 0x0f == lo
  {
  }

  lemma {:induction false} DecodeEncode(bytes: seq<Byte>)
    ensures DecodeHex(EncodeHex(bytes)) == Some(bytes)
    ensures forall i :: 0 <= i < |EncodeHex(bytes)| ==> IsLowerHex(EncodeHex(bytes)[i])
  {
    if bytes != [] {
      JoinNibbles(bytes[0]);
      DigitRoundTrip(bytes[0] >> 4);
      DigitRoundTrip(bytes[0] & 0x0f);
      DecodeEncode(bytes[1..]);
      var s := EncodeHex(bytes);
      assert s[2..] == EncodeHex(bytes[1..]);
      assert HexValue(s[0]) == Some(bytes[0] >> 4) && HexValue(s[1]) == Some(bytes[0] & 0x0f);
      assert DecodeHex(s).value == [bytes[0]] + bytes[1..] == bytes;
    }
  }

  lemma {:induction false} EncodeDecode(s: string)
    requires forall i :: 0 <= i < |s| ==> IsLowerHex(s[i])
    requires DecodeHex(s).Some?
    ensures EncodeHex(DecodeHex(s).value) == s
  {
    if s != "" {
      ValueRoundTrip(s[0]);
      ValueRoundTrip(s[1]);
      SplitNibbles(HexValue(s[0]).value, HexValue(s[1]).value);
      EncodeDecode(s[2..]);
      var bytes := DecodeHex(s).value;
      assert bytes[1..] == DecodeHex(s[2..]).value;
      assert s == [s[0], s[1]] + s[2..];
    }
  }

  lemma {:induction false} EncodeAppend(a: seq<Byte>, b: seq<Byte>)
    ensures EncodeHex(a + b) == EncodeHex(a) + EncodeHex(b)
  {
    if a == [] {
      assert a + b == b;
    } else {
      assert (a + b)[1..] == a[1..] + b;
      EncodeAppend(a[1..], b);
    }
  }

  /** The five groups of the text are the five slices of the plain hex. */
  lemma Groups(v: Uuid)
    ensures EncodeHex(v) == EncodeHex(v[0..4]) + (EncodeHex(v[4..6]) + (EncodeHex(v[6..8])
                            + (EncodeHex(v[8..10]) + EncodeHex(v[10..16]))))
  {
    assert v == v[0..4] + v[4..];
    assert v[4..] == v[4..6] + v[6..];
    assert v[6..] == v[6..8] + v[8..];
    assert v[8..] == v[8..10] + v[10..16];
    EncodeAppend(v[0..4], v[4..]);
    EncodeAppend(v[4..6], v[6..]);
    EncodeAppend(v[6..8], v[8..]);
    EncodeAppend(v[8..10], v[10..16]);
  }

  lemma {:induction false} StripAppend(a: string, b: string)
    ensures StripDashes(a + b) == StripDashes(a) + StripDashes(b)
  {
    if a == "" {
      assert a + b == b;
    } else {
      assert (a + b)[1..] == a[1..] + b;
      StripAppend(a[1..], b);
    }
  }

  lemma {:induction false} StripHex(s: string)
    requires forall i :: 0 <= i < |s| ==> IsLowerHex(s[i])
    ensures StripDashes(s) == s
  {
    if s != "" {
      StripHex(s[1..]);
    }
  }

  lemma StripGroup(group: string, rest: string)
    requires forall i :: 0 <= i < |group| ==> IsLowerHex(group[i])
    ensures StripDashes(Dash(group, rest)) == group + StripDashes(rest)
  {
    StripAppend(group + "-", rest);
    StripAppend(group, "-");
    StripHex(group);
  }

  /** Removing the dashes from five dash-free groups joins the groups. */
  lemma StripGroups(a: string, b: string, c: string, d: string, e: string)
    requires forall i :: 0 <= i < |a| ==> IsLowerHex(a[i])
    requires forall i :: 0 <= i < |b| ==> IsLowerHex(b[i])
    requires forall i :: 0 <= i < |c| ==> IsLowerHex(c[i])
    requires forall i :: 0 <= i < |d| ==> IsLowerHex(d[i])
    requires forall i :: 0 <= i < |e| ==> IsLowerHex(e[i])
    ensures StripDashes(Dash(a, Dash(b, Dash(c, Dash(d, e))))) == a + (b + (c + (d + e)))
  {
    StripGroup(a, Dash(b, Dash(c, Dash(d, e))));
    StripGroup(b, Dash(c, Dash(d, e)));
    StripGroup(c, Dash(d, e));
    StripGroup(d, e);
    StripHex(e);
  }

  /** Parsing the text of an identifier returns the same sixteen bytes, and
      the text is canonical. */
  lemma ParseFormat(v: Uuid)
    ensures ParseId(FormatId(v)) == Some(v)
    ensures Canonical(FormatId(v))
  {
    var a, b, c := EncodeHex(v[0..4]), EncodeHex(v[4..6]), EncodeHex(v[6..8]);
    var d, e := EncodeHex(v[8..10]), EncodeHex(v[10..16]);
    DecodeEncode(v[0..4]); DecodeEncode(v[4..6]); DecodeEncode(v[6..8]);
    DecodeEncode(v[8..10]); DecodeEncode(v[10..16]);
    StripGroups(a, b, c, d, e);
    Groups(v);
    DecodeEncode(v);
    DashedIsCanonical(a, b, c, d, e);
  }

  lemma DashedIsCanonical(a: string, b: string, c: string, d: string, e: string)
    requires |a| == 8 && |b| == |c| == |d| == 4 && |e| == 12
    requires forall i :: 0 <= i < 8 ==> IsLowerHex(a[i])
    requires forall i :: 0 <= i < 4 ==> IsLowerHex(b[i]) && IsLowerHex(c[i]) && IsLowerHex(d[i])
    requires forall i :: 0 <= i < 12 ==> IsLowerHex(e[i])
    ensures Canonical(Dash(a, Dash(b, Dash(c, Dash(d, e)))))
  {
  }

  /** The parser is more liberal than the printer: what it accepts prints back
      as written exactly when it was canonical. */
  lemma FormatParse(s: string)
    requires ParseId(s).Some?
    ensures FormatId(ParseId(s).value) == s <==> Canonical(s)
  {
    var v := ParseId(s).value;
    ParseFormat(v);
    if Canonical(s) {
      var a, b, c, d, e := s[0..8], s[9..13], s[14..18], s[19..23], s[24..36];
      assert s == Dash(a, Dash(b, Dash(c, Dash(d, e))));
      StripGroups(a, b, c, d, e);
      EncodeDecode(a + (b + (c + (d + e))));
      Groups(v);
      SameGroups(v, a, b, c, d, e);
    }
  }

  lemma SameGroups(v: Uuid, a: string, b: string, c: string, d: string, e: string)
    requires |a| == 8 && |b| == |c| == |d| == 4 && |e| == 12
    requires EncodeHex(v[0..4]) + (EncodeHex(v[4..6]) + (EncodeHex(v[6..8])
             + (EncodeHex(v[8..10]) + EncodeHex(v[10..16])))) == a + (b + (c + (d + e)))
    ensures FormatId(v) == Dash(a, Dash(b, Dash(c, Dash(d, e))))
  {
    var x := a + (b + (c + (d + e)));
    assert EncodeHex(v[0..4]) == x[0..8] == a;
    assert EncodeHex(v[4..6]) == x[8..12] == b;
    assert EncodeHex(v[6..8]) == x[12..16] == c;
    assert EncodeHex(v[8..10]) == x[16..20] == d;
    assert EncodeHex(v[10..16]) == x[20..32] == e;
  }

  lemma {:induction false} LowerHexDecodes(s: string)
    requires |s| % 2 == 0 && forall i :: 0 <= i < |s| ==> IsLowerHex(s[i])
    ensures DecodeHex(s).Some? && |DecodeHex(s).value| == |s| / 2
  {
    if s != "" {
      ValueRoundTrip(s[0]);
      ValueRoundTrip(s[1]);
      LowerHexDecodes(s[2..]);
    }
  }

  /** Every canonical text is the text of some sixteen bytes. */
  lemma CanonicalDecodes(s: string)
    requires Canonical(s)
    ensures ParseId(s).Some?
  {
    var a, b, c, d, e := s[0..8], s[9..13], s[14..18], s[19..23], s[24..36];
    assert s == Dash(a, Dash(b, Dash(c, Dash(d, e))));
    StripGroups(a, b, c, d, e);
    LowerHexDecodes(a + (b + (c + (d + e))));
  }

  lemma FormatInjective(v: Uuid, w: Uuid)
    requires FormatId(v) == FormatId(w)
    ensures v == w
  {
    ParseFormat(v);
    ParseFormat(w);
  }

  lemma CanonicalNotBlank(s: string)
    requires Canonical(s)
    ensures !Blank(s)
  {
    assert !IsSpace(s[0]);
  }

  /** The stamped text of any sixteen bytes: version digit 4 and variant bits
      10, as section 5.4 of RFC 9562 lays them out. */
  lemma StampedText(v: Uuid)
    requires v[6] & 0xf0 == 0x40 && v[8] & 0xc0 == 0x80
    ensures FormatId(v)[14] == '4' && FormatId(v)[19] in "89ab"
  {
    assert FormatId(v)[14] == EncodeHex(v[6..8])[0] == HexDigit(v[6] >> 4);
    assert FormatId(v)[19] == EncodeHex(v[8..10])[0] == HexDigit(v[8] >> 4);
    assert v[6] >> 4 == 4;
    var n := v[8] >> 4;
    assert n == 8 || n == 9 || n == 10 || n == 11;
  }

  /** newMessageID: `value` holds the random bytes on entry and is stamped in
      place.  Every bit but the six version and variant bits is kept. */
  method NewMessageId(value: array<Byte>) returns (id: string)
    requires value.Length == 16
    modifies value
    ensures id == FormatId(value[..])
    ensures Canonical(id) && id[14] == '4' && id[19] in "89ab"
    ensures ParseId(id) == Some(value[..])
    ensures forall i :: 0 <= i < 16 && i != 6 && i != 8 ==> value[i] == old(value[i])
    ensures value[6] & 0x0f == old(value[6]) & 0x0f && value[8] & 0x3f == old(value[8]) & 0x3f
  {
    value[6] := (value[6] & 0x0f) | 0x40;
    value[8] := (value[8] & 0x3f) | 0x80;
    ghost var v: Uuid := value[..];
    id := Dash(EncodeHex(value[0..4]), Dash(EncodeHex(value[4..6]), Dash(EncodeHex(value[6..8]),
            Dash(EncodeHex(value[8..10]), EncodeHex(value[10..16])))));
    assert value[0..4] == v[0..4] && value[4..6] == v[4..6] && value[6..8] == v[6..8]
           && value[8..10] == v[8..10] && value[10..16] == v[10..16];
    ParseFormat(v);
    StampedText(v);
  }
}
