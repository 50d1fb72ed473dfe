/**
 * The printf conversions the daemon and its writers use: `%d`, `%02X` byte
 * pairs (joined by ':' or run together) and the truncation `snprintf` applies
 * to a fixed buffer. Each formatter has a parser beside it, and the round trip
 * `Parse(Format(x)) == Some(x)` is proved, so the text the writers produce
 * can be read back.
 */
module Format {
  import opened TempTypes

  datatype Option<+T> = None | Some(value: T)

  /**
   * The text `snprintf(buf, size, ...)` leaves in `buf`: the formatted text
   * when it is shorter than `size`, otherwise its first `size - 1` characters.
   */
  function Truncate(s: string, size: nat): (r: string)
    requires size > 0
    ensures r <= s
    ensures |r| == if |s| < size then |s| else size - 1
  {
    if |s| < size then s else s[..size - 1]
  }

  // ---------------------------------------------------------------- %d

  predicate IsDigit(c: char) {
    '0' <= c <= '9'
  }

  function DigitChar(d: nat): (c: char)
    requires d < 10
    ensures IsDigit(c)
  {
    (48 + d) as char
  }

  function DigitValue(c: char): nat
    requires IsDigit(c)
  {
    c as int - 48
  }

  /** Decimal digits of `n`, most significant first, no leading zero. */
  function NatString(n: nat): (r: string)
    ensures |r| > 0
    ensures forall k :: 0 <= k < |r| ==> IsDigit(r[k])
    ensures |r| > 1 ==> r[0] != '0'
    decreases n
  {
    if n < 10 then [DigitChar(n)] else NatString(n / 10) + [DigitChar(n % 10)]
  }

  /** `%d` */
  function IntString(i: int): (r: string)
    ensures |r| > 0
    ensures forall k :: 0 <= k < |r| ==> IsDigit(r[k]) || (k == 0 && r[k] == '-')
  {
    if i < 0 then "-" + NatString(-i) else NatString(i)
  }

  predicate AllDigits(s: string) {
    forall k :: 0 <= k < |s| ==> IsDigit(s[k])
  }

  function ParseNat(s: string): nat
    requires AllDigits(s)
    decreases |s|
  {
    if s == [] then 0 else ParseNat(s[..|s| - 1]) * 10 + DigitValue(s[|s| - 1])
  }

  /** Reads back a `%d` field: an optional '-' followed by at least one digit. */
  function ParseInt(s: string): Option<int> {
    if |s| > 0 && s[0] == '-' then
      if |s| > 1 && AllDigits(s[1..]) then (var magnitude: int := ParseNat(s[1..]); Some(-magnitude))
      else None
    else if |s| > 0 && AllDigits(s) then Some(ParseNat(s))
    else None
  }

  lemma {:induction false} NatStringRoundTrip(n: nat)
    ensures ParseNat(NatString(n)) == n
    decreases n
  {
    if n >= 10 {
      var s := NatString(n);
      assert s == NatString(n / 10) + [DigitChar(n % 10)];
      assert s[..|s| - 1] == NatString(n / 10);
      NatStringRoundTrip(n / 10);
    }
  }

  /** `%d` text reads back as the integer it was made from. */
  lemma IntStringRoundTrip(i: int)
    ensures ParseInt(IntString(i)) == Some(i)
  {
    if i < 0 {
      var s := IntString(i);
      assert s[1..] == NatString(-i);
      NatStringRoundTrip(-i);
    } else {
      NatStringRoundTrip(i);
    }
  }

  // ---------------------------------------------------------------- %02X

  predicate IsHexChar(c: char) {
    '0' <= c <= '9' || 'A' <= c <= 'F'
  }

  /** One upper-case hexadecimal digit. */
  function HexDigit(d: nat): (c: char)
    requires d < 16
    ensures IsHexChar(c)
  {
    if d < 10 then (48 + d) as char else (55 + d) as char
  }

  function HexValue(c: char): Option<nat> {
    if '0' <= c <= '9' then Some(c as int - 48)
    else if 'A' <= c <= 'F' then Some(c as int - 55)
    else None
  }

  /** `%02X`: two upper-case hex digits, zero-padded. */
  function HexPair(b: Byte): (r: string)
    ensures |r| == 2 && IsHexChar(r[0]) && IsHexChar(r[1])
  {
    [HexDigit(b / 16), HexDigit(b % 16)]
  }

  function ParsePair(s: string): Option<Byte>
    requires |s| == 2
  {
    match (HexValue(s[0]), HexValue(s[1]))
    case (Some(hi), Some(lo)) => if hi * 16 + lo < 256 then Some(hi * 16 + lo) else None
    case _ => None
  }

  lemma HexPairRoundTrip(b: Byte)
    ensures ParsePair(HexPair(b)) == Some(b)
  {
  }

  /** Bytes as `%02X` pairs joined by ':' (the address and scratchpad columns). */
  function ColonHex(bs: seq<Byte>): (r: string)
    ensures bs == [] ==> r == []
    ensures bs != [] ==> |r| == 3 * |bs| - 1
    ensures forall k :: 0 <= k < |r| ==> IsHexChar(r[k]) || r[k] == ':'
  {
    if |bs| == 0 then []
    else if |bs| == 1 then HexPair(bs[0])
    else HexPair(bs[0]) + ":" + ColonHex(bs[1..])
  }

  function ParseColonHex(s: string): Option<seq<Byte>>
    decreases |s|
  {
    if s == [] then Some([])
    else if |s| == 2 then
      match ParsePair(s)
      case Some(b) => Some([b])
      case None => None
    else if |s| > 3 && s[2] == ':' then
      match (ParsePair(s[..2]), ParseColonHex(s[3..]))
      case (Some(b), Some(rest)) => Some([b] + rest)
      case _ => None
    else None
  }

  lemma {:induction false} ColonHexRoundTrip(bs: seq<Byte>)
    ensures ParseColonHex(ColonHex(bs)) == Some(bs)
    decreases |bs|
  {
    if |bs| == 1 {
      HexPairRoundTrip(bs[0]);
      assert [bs[0]] == bs;
    } else if |bs| > 1 {
      var s := ColonHex(bs);
      assert s[..2] == HexPair(bs[0]);
      assert s[3..] == ColonHex(bs[1..]);
      HexPairRoundTrip(bs[0]);
      ColonHexRoundTrip(bs[1..]);
      assert [bs[0]] + bs[1..] == bs;
    }
  }

  /** Bytes as `%02X` pairs with no separator (the MQTT topic and scratchpad payload). */
  function HexRun(bs: seq<Byte>): (r: string)
    ensures |r| == 2 * |bs|
    ensures forall k :: 0 <= k < |r| ==> IsHexChar(r[k])
  {
    if bs == [] then [] else HexPair(bs[0]) + HexRun(bs[1..])
  }

  function ParseHexRun(s: string): Option<seq<Byte>>
    decreases |s|
  {
    if s == [] then Some([])
    else if |s| < 2 then None
    else
      match (ParsePair(s[..2]), ParseHexRun(s[2..]))
      case (Some(b), Some(rest)) => Some([b] + rest)
      case _ => None
  }

  lemma {:induction false} HexRunRoundTrip(bs: seq<Byte>)
    ensures ParseHexRun(HexRun(bs)) == Some(bs)
    decreases |bs|
  {
    if bs != [] {
      var s := HexRun(bs);
      assert s[..2] == HexPair(bs[0]);
      assert s[2..] == HexRun(bs[1..]);
      HexPairRoundTrip(bs[0]);
      HexRunRoundTrip(bs[1..]);
      assert [bs[0]] + bs[1..] == bs;
    }
  }

  /**
   * The address columns of the TSV and JSON writers, eight `%02X` pairs
   * joined by ':' (the format the logging helper `print_address` also uses).
   */
  function AddressText(a: Address): (r: string)
    ensures |r| == 23
  {
    ColonHex(a)
  }

  /** The scratchpad columns: the nine named bytes as `%02X` pairs joined by ':'. */
  function ScratchpadText(scr: Scratchpad): (r: string)
    ensures |r| == 26
  {
    ColonHex(ScratchpadFields(scr))
  }

  /** The address column reads back as the 8-byte ROM code. */
  lemma AddressTextRoundTrip(a: Address)
    ensures ParseColonHex(AddressText(a)) == Some(a)
  {
    ColonHexRoundTrip(a);
  }

  /** The scratchpad column reads back as the scratchpad, SCR_L first. */
  lemma ScratchpadTextRoundTrip(scr: Scratchpad)
    ensures ParseColonHex(ScratchpadText(scr)) == Some(scr)
  {
    ColonHexRoundTrip(ScratchpadFields(scr));
    ScratchpadFieldsInOrder(scr);
  }

  // ---------------------------------------------------------------- sequences

  /** Growing a prefix by one element. */
  lemma PrefixSnoc<T>(s: seq<T>, n: nat)
    requires n < |s|
    ensures s[..n + 1] == s[..n] + [s[n]]
  {
  }

  /** Concatenation regrouped to the right. */
  lemma AppendAssoc<T>(a: seq<T>, b: seq<T>, c: seq<T>)
    ensures a + b + c == a + (b + c)
  {
  }

  /** Three single appends are one append of three. */
  lemma SnocThree<T>(s: seq<T>, x: T, y: T, z: T)
    ensures s + [x] + [y] + [z] == s + [x, y, z]
  {
  }

  /** The elements a concatenation takes from its left part. */
  lemma SliceLeft<T>(a: seq<T>, b: seq<T>, lo: nat, hi: nat)
    requires lo <= hi <= |a|
    ensures (a + b)[lo..hi] == a[lo..hi]
  {
  }

  /** The elements a concatenation takes from its right part. */
  lemma SliceRight<T>(a: seq<T>, b: seq<T>, lo: nat, hi: nat)
    requires lo <= hi <= |b|
    ensures (a + b)[|a| + lo..|a| + hi] == b[lo..hi]
  {
  }

  // ---------------------------------------------------------------- fields

  /** Splits `s` at every `sep`; the result always has at least one field. */
  function Split(s: string, sep: char): (r: seq<string>)
    ensures |r| > 0
    decreases |s|
  {
    if s == [] then [[]]
    else if s[0] == sep then [[]] + Split(s[1..], sep)
    else
      var rest := Split(s[1..], sep);
      [[s[0]] + rest[0]] + rest[1..]
  }

  lemma {:induction false} SplitNoSep(a: string, sep: char)
    requires sep !in a
    ensures Split(a, sep) == [a]
    decreases |a|
  {
    if a != [] {
      SplitNoSep(a[1..], sep);
      assert [a[0]] + a[1..] == a;
    }
  }

  /** Splitting a field followed by a separator peels that field off. */
  lemma {:induction false} SplitField(a: string, sep: char, b: string)
    requires sep !in a
    ensures Split(a + [sep] + b, sep) == [a] + Split(b, sep)
    decreases |a|
  {
    var s := a + [sep] + b;
    if a == [] {
      assert s[1..] == b;
    } else {
      assert s[1..] == a[1..] + [sep] + b;
      SplitField(a[1..], sep, b);
      assert [a[0]] + a[1..] == a;
    }
  }

  /** Fields joined by `sep` (a tab-separated row). */
  function Join(fields: seq<string>, sep: char): string
    requires |fields| > 0
    decreases |fields|
  {
    if |fields| == 1 then fields[0] else fields[0] + [sep] + Join(fields[1..], sep)
  }

  /** Splitting a joined row gives back its fields when none holds the separator. */
  lemma {:induction false} SplitJoin(fields: seq<string>, sep: char)
    requires |fields| > 0
    requires forall k :: 0 <= k < |fields| ==> sep !in fields[k]
    ensures Split(Join(fields, sep), sep) == fields
    decreases |fields|
  {
    if |fields| == 1 {
      SplitNoSep(fields[0], sep);
    } else {
      SplitField(fields[0], sep, Join(fields[1..], sep));
      SplitJoin(fields[1..], sep);
      assert [fields[0]] + fields[1..] == fields;
    }
  }

  // ---------------------------------------------------------------- separators

  /** A separator that is neither a digit nor a minus sign never occurs in a decimal number. */
  lemma NoSeparatorInInt(i: int, c: char)
    requires !IsDigit(c) && c != '-'
    ensures c !in IntString(i)
  {
  }

  /** Neither do colon-separated hex pairs. */
  lemma NoSeparatorInColonHex(bs: seq<Byte>, c: char)
    requires !IsHexChar(c) && c != ':'
    ensures c !in ColonHex(bs)
  {
  }
}
