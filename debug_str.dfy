/**
 * The `{:?}` rendering of a string slice, as Rust's core library writes it:
 * the text between double quotes, each character passed through the
 * escaping behind `char::escape_debug`, called with double-quote escaping on
 * and single-quote escaping off (so `'` is written as it is).
 * Characters from U+00A0 on are written as they are; Rust's Unicode tables of
 * printable and grapheme-extending characters are not part of this model.
 *
 * `Unescape` reads such a rendering back; `UnescapeEscape` proves it inverts
 * `Escape`, so a rendering always determines the string it came from.
 */
module DebugStr {
  import opened Wrappers

  /** Characters below U+00A0 that `char::is_printable` rejects: C0 controls, DEL and C1 controls. */
  predicate IsUnprintable(c: char) {
    c as int < 0x20 || 0x7f <= c as int < 0xa0
  }

  /** The letter after the backslash for the characters that have a two-character escape. */
  function ShortEscape(c: char): Option<char> {
    if c == '\0' then Some('0')
    else if c == '\t' then Some('t')
    else if c == '\r' then Some('r')
    else if c == '\n' then Some('n')
    else if c == '\\' then Some('\\')
    else if c == '"' then Some('"')
    else None
  }

  /** The inverse of `ShortEscape`: the character a two-character escape stands for. */
  function ShortUnescape(e: char): (r: Option<char>)
    ensures r.Some? ==> ShortEscape(r.value) == Some(e)
  {
    if e == '0' then Some('\0')
    else if e == 't' then Some('\t')
    else if e == 'r' then Some('\r')
    else if e == 'n' then Some('\n')
    else if e == '\\' then Some('\\')
    else if e == '"' then Some('"')
    else None
  }

  /** True of the characters that `char::escape_debug` does not write out as they are. */
  predicate NeedsEscape(c: char) {
    ShortEscape(c).Some? || IsUnprintable(c)
  }

  predicate IsHexDigit(c: char) {
    '0' <= c <= '9' || 'a' <= c <= 'f'
  }

  function HexDigit(d: nat): (c: char)
    requires d < 16
    ensures IsHexDigit(c)
  {
    if d < 10 then ('0' as int + d) as char else ('a' as int + d - 10) as char
  }

  function DigitValue(c: char): (d: nat)
    requires IsHexDigit(c)
    ensures d < 16 && HexDigit(d) == c
  {
    if c <= '9' then c as int - '0' as int else c as int - 'a' as int + 10
  }

  /** Lower-case hexadecimal without leading zeros, as `char::escape_unicode` writes a code point. */
  function Hex(n: nat): (h: string)
    requires n < 0x100
    ensures 0 < |h| <= 2 && forall i | 0 <= i < |h| :: IsHexDigit(h[i])
  {
    if n < 16 then [HexDigit(n)] else [HexDigit(n / 16), HexDigit(n % 16)]
  }

  /** The value of a run of hexadecimal digits, most significant first. */
  function HexValue(d: string): nat
    requires forall i | 0 <= i < |d| :: IsHexDigit(d[i])
    decreases |d|
  {
    if d == [] then 0 else 16 * HexValue(d[..|d| - 1]) + DigitValue(d[|d| - 1])
  }

  /** The length of the longest prefix of `s` made of hexadecimal digits. */
  function HexRun(s: string): (n: nat)
    ensures n <= |s|
    ensures forall i | 0 <= i < n :: IsHexDigit(s[i])
    ensures n < |s| ==> !IsHexDigit(s[n])
    decreases |s|
  {
    if s != [] && IsHexDigit(s[0]) then 1 + HexRun(s[1..]) else 0
  }

  /** `char::escape_debug` of one character, inside a string. */
  function EscapeChar(c: char): string {
    match ShortEscape(c)
    case Some(e) => ['\\', e]
    case None => if IsUnprintable(c) then "\\u{" + Hex(c as int) + "}" else [c]
  }

  /** Every character of `s` escaped, in order. */
  function Escape(s: string): string
    decreases |s|
  {
    if s == [] then [] else EscapeChar(s[0]) + Escape(s[1..])
  }

  /** `<str as Debug>::fmt`: the escaped text between double quotes. */
  function Quoted(s: string): string {
    "\"" + Escape(s) + "\""
  }

  function Prepend(c: char, rest: Option<string>): Option<string> {
    match rest
    case Some(t) => Some([c] + t)
    case None => None
  }

  /**
   * Reads the inside of a quoted rendering back into the string it stands for;
   * `None` for text that no string renders to (a bare double quote, an unknown
   * or unfinished escape).
   */
  function Unescape(s: string): Option<string>
    decreases |s|
  {
    if s == [] then Some([])
    else if s[0] == '"' then None
    else if s[0] != '\\' then Prepend(s[0], Unescape(s[1..]))
    else if |s| < 2 then None
    else match ShortUnescape(s[1])
      case Some(c) => Prepend(c, Unescape(s[2..]))
      case None =>
        if s[1] != 'u' || |s| < 3 || s[2] != '{' then None
        else
          var n := HexRun(s[3..]);
          if n == 0 || 3 + n >= |s| || s[3 + n] != '}' then None
          else
            var v := HexValue(s[3..3 + n]);
            if v < 0xD800 || 0xE000 <= v < 0x11_0000 then Prepend(v as char, Unescape(s[4 + n..]))
            else None
  }

  lemma HexValueOfHex(n: nat)
    requires n < 0x100
    ensures HexValue(Hex(n)) == n
  {
    var h := Hex(n);
    if n >= 16 {
      assert h[..1] == [HexDigit(n / 16)];
      assert HexValue(h[..1]) == n / 16 by {
        assert h[..1][..0] == [];
      }
    } else {
      assert h[..0] == [];
    }
  }

  /** A run of hexadecimal digits ends at the first character that is not one. */
  lemma {:induction false} HexRunStops(h: string, rest: string)
    requires forall i | 0 <= i < |h| :: IsHexDigit(h[i])
    requires rest != [] && !IsHexDigit(rest[0])
    ensures HexRun(h + rest) == |h|
    decreases |h|
  {
    if h != [] {
      assert (h + rest)[1..] == h[1..] + rest;
      HexRunStops(h[1..], rest);
    } else {
      assert h + rest == rest;
    }
  }

  lemma UnescapeShortEscape(c: char, t: string)
    requires ShortEscape(c).Some?
    ensures Unescape(EscapeChar(c) + t) == Prepend(c, Unescape(t))
  {
    var s := EscapeChar(c) + t;
    assert s[0] == '\\' && s[1] == ShortEscape(c).value;
    assert s[2..] == t;
  }

  lemma UnescapeHexEscape(c: char, t: string)
    requires ShortEscape(c).None? && IsUnprintable(c)
    ensures Unescape(EscapeChar(c) + t) == Prepend(c, Unescape(t))
  {
    var h := Hex(c as int);
    var s := "\\u{" + h + "}" + t;
    assert EscapeChar(c) + t == s;
    assert s[3..] == h + ("}" + t);
    HexRunStops(h, "}" + t);
    assert s[3 + |h|] == '}';
    assert s[3..3 + |h|] == h;
    HexValueOfHex(c as int);
    assert s[4 + |h|..] == t;
  }

  /** Reading back one escaped character yields that character, whatever follows it. */
  lemma UnescapeEscapeChar(c: char, t: string)
    ensures Unescape(EscapeChar(c) + t) == Prepend(c, Unescape(t))
  {
    if ShortEscape(c).Some? {
      UnescapeShortEscape(c, t);
    } else if IsUnprintable(c) {
      UnescapeHexEscape(c, t);
    } else {
      assert ([c] + t)[1..] == t;
    }
  }

  /** `Unescape` inverts `Escape`: a quoted rendering determines the string. */
  lemma {:induction false} UnescapeEscape(s: string)
    ensures Unescape(Escape(s)) == Some(s)
    decreases |s|
  {
    if s != [] {
      UnescapeEscapeChar(s[0], Escape(s[1..]));
      UnescapeEscape(s[1..]);
      assert [s[0]] + s[1..] == s;
    }
  }

  /** A string with nothing to escape is written as it is. */
  lemma {:induction false} EscapePlain(s: string)
    requires forall i | 0 <= i < |s| :: !NeedsEscape(s[i])
    ensures Escape(s) == s
    decreases |s|
  {
    if s != [] {
      EscapePlain(s[1..]);
      assert [s[0]] + s[1..] == s;
    }
  }
}
