/**
 * Half-width to full-width normalisation (crates/client/src/engine/full_width.rs).
 * Each character is looked up on its own in two constant tables, so both
 * conversions map one character to exactly one character. The tables are
 * written as lookup functions: `None` is a key that is not in the table.
 */
module FullWidth {
  import opened Wrappers

  predicate IsAscii(c: char) { (c as int) < 0x80 }

  predicate IsLowerAscii(c: char) { 'a' <= c <= 'z' }

  predicate IsDigitOrUpper(c: char) { '0' <= c <= '9' || 'A' <= c <= 'Z' }

  /** `HALF_FULL_AZOOKEY`: ASCII punctuation and symbols to their Japanese forms. */
  function HalfFullAzookey(c: char): (r: Option<char>)
    ensures r.Some? ==> IsAscii(c) && !IsLowerAscii(c) && !IsDigitOrUpper(c) && !IsAscii(r.value)
  {
    match c
    case '!' => Some('\U{FF01}')
    case '\"' => Some('\U{201D}')
    case '#' => Some('\U{FF03}')
    case '$' => Some('\U{FF04}')
    case '%' => Some('\U{FF05}')
    case '&' => Some('\U{FF06}')
    case '\'' => Some('\U{2019}')
    case '(' => Some('\U{FF08}')
    case ')' => Some('\U{FF09}')
    case '*' => Some('\U{FF0A}')
    case '+' => Some('\U{FF0B}')
    case ',' => Some('\U{3001}')
    case '-' => Some('\U{30FC}')
    case '.' => Some('\U{3002}')
    case '/' => Some('\U{30FB}')
    case ':' => Some('\U{FF1A}')
    case ';' => Some('\U{FF1B}')
    case '<' => Some('\U{FF1C}')
    case '=' => Some('\U{FF1D}')
    case '>' => Some('\U{FF1E}')
    case '?' => Some('\U{FF1F}')
    case '@' => Some('\U{FF20}')
    case '[' => Some('\U{300C}')
    case '\\' => Some('\U{FFE5}')
    case ']' => Some('\U{300D}')
    case '^' => Some('\U{FF3E}')
    case '_' => Some('\U{FF3F}')
    case '`' => Some('\U{FF40}')
    case '{' => Some('\U{FF5B}')
    case '|' => Some('\U{FF5C}')
    case '}' => Some('\U{FF5D}')
    case '~' => Some('\U{FF5E}')
    case _ => None
  }

  /** `HALF_FULL`: lower-case ASCII letters to full-width letters. */
  function HalfFull(c: char): (r: Option<char>)
    ensures r.Some? <==> IsLowerAscii(c)
    ensures r.Some? ==> !IsAscii(r.value) && r.value as int == c as int + 0xFEE0
  {
    match c
    case 'a' => Some('\U{FF41}')
    case 'b' => Some('\U{FF42}')
    case 'c' => Some('\U{FF43}')
    case 'd' => Some('\U{FF44}')
    case 'e' => Some('\U{FF45}')
    case 'f' => Some('\U{FF46}')
    case 'g' => Some('\U{FF47}')
    case 'h' => Some('\U{FF48}')
    case 'i' => Some('\U{FF49}')
    case 'j' => Some('\U{FF4A}')
    case 'k' => Some('\U{FF4B}')
    case 'l' => Some('\U{FF4C}')
    case 'm' => Some('\U{FF4D}')
    case 'n' => Some('\U{FF4E}')
    case 'o' => Some('\U{FF4F}')
    case 'p' => Some('\U{FF50}')
    case 'q' => Some('\U{FF51}')
    case 'r' => Some('\U{FF52}')
    case 's' => Some('\U{FF53}')
    case 't' => Some('\U{FF54}')
    case 'u' => Some('\U{FF55}')
    case 'v' => Some('\U{FF56}')
    case 'w' => Some('\U{FF57}')
    case 'x' => Some('\U{FF58}')
    case 'y' => Some('\U{FF59}')
    case 'z' => Some('\U{FF5A}')
    case _ => None
  }

  /**
   * The reverse of `HALF_FULL_AZOOKEY`. `to_halfwidth` searches the table for
   * an entry whose value is the character; `AzookeyReverseIsInverse` shows
   * that this lookup answers that search.
   */
  function FullHalfAzookey(c: char): (r: Option<char>)
  {
    match c
    case '\U{FF01}' => Some('!')
    case '\U{201D}' => Some('\"')
    case '\U{FF03}' => Some('#')
    case '\U{FF04}' => Some('$')
    case '\U{FF05}' => Some('%')
    case '\U{FF06}' => Some('&')
    case '\U{2019}' => Some('\'')
    case '\U{FF08}' => Some('(')
    case '\U{FF09}' => Some(')')
    case '\U{FF0A}' => Some('*')
    case '\U{FF0B}' => Some('+')
    case '\U{3001}' => Some(',')
    case '\U{30FC}' => Some('-')
    case '\U{3002}' => Some('.')
    case '\U{30FB}' => Some('/')
    case '\U{FF1A}' => Some(':')
    case '\U{FF1B}' => Some(';')
    case '\U{FF1C}' => Some('<')
    case '\U{FF1D}' => Some('=')
    case '\U{FF1E}' => Some('>')
    case '\U{FF1F}' => Some('?')
    case '\U{FF20}' => Some('@')
    case '\U{300C}' => Some('[')
    case '\U{FFE5}' => Some('\\')
    case '\U{300D}' => Some(']')
    case '\U{FF3E}' => Some('^')
    case '\U{FF3F}' => Some('_')
    case '\U{FF40}' => Some('`')
    case '\U{FF5B}' => Some('{')
    case '\U{FF5C}' => Some('|')
    case '\U{FF5D}' => Some('}')
    case '\U{FF5E}' => Some('~')
    case _ => None
  }

  lemma AzookeyReverseIsInverse(c: char)
    ensures HalfFullAzookey(c).Some? ==> FullHalfAzookey(HalfFullAzookey(c).value) == Some(c)
    ensures FullHalfAzookey(c).Some? ==> HalfFullAzookey(FullHalfAzookey(c).value) == Some(c)
  {
  }

  /** A character is a table value exactly when the reverse lookup finds it. */
  lemma ReverseLookupFinds(c: char)
    ensures (exists k :: HalfFullAzookey(k) == Some(c)) <==> FullHalfAzookey(c).Some?
    ensures FullHalfAzookey(c).Some? ==> HalfFullAzookey(FullHalfAzookey(c).value) == Some(c)
  {
    AzookeyReverseIsInverse(c);
    if exists k :: HalfFullAzookey(k) == Some(c) {
      var k :| HalfFullAzookey(k) == Some(c);
      AzookeyReverseIsInverse(k);
    }
  }

  /** One character of `to_fullwidth`. */
  function FullChar(c: char, processAlphabet: bool): char
  {
    if processAlphabet && HalfFull(c).Some? then HalfFull(c).value
    else if HalfFullAzookey(c).Some? then HalfFullAzookey(c).value
    else c
  }

  /** One character of `to_halfwidth`: the key whose table value is `c`, else `c` itself. */
  function HalfChar(c: char): (r: char)
    ensures (exists k :: HalfFullAzookey(k) == Some(c)) ==> HalfFullAzookey(r) == Some(c)
    ensures !(exists k :: HalfFullAzookey(k) == Some(c)) ==> r == c
  {
    ReverseLookupFinds(c);
    if FullHalfAzookey(c).Some? then FullHalfAzookey(c).value else c
  }

  /** `to_fullwidth(s, process_alphabet)`. */
  function ToFullwidth(s: string, processAlphabet: bool): (r: string)
    ensures |r| == |s|
    ensures forall i :: 0 <= i < |s| ==> r[i] == FullChar(s[i], processAlphabet)
  {
    seq(|s|, i requires 0 <= i < |s| => FullChar(s[i], processAlphabet))
  }

  /** `to_halfwidth(s)`. */
  function ToHalfwidth(s: string): (r: string)
    ensures |r| == |s|
    ensures forall i :: 0 <= i < |s| ==> r[i] == HalfChar(s[i])
  {
    seq(|s|, i requires 0 <= i < |s| => HalfChar(s[i]))
  }

  /** Digits, upper-case letters and characters in neither table pass through unchanged. */
  lemma FullwidthPassThrough(s: string, processAlphabet: bool, i: nat)
    requires i < |s|
    requires IsDigitOrUpper(s[i]) || (HalfFullAzookey(s[i]).None? && HalfFull(s[i]).None?)
    ensures ToFullwidth(s, processAlphabet)[i] == s[i]
  {
  }

  /** A lower-case letter changes exactly when `process_alphabet` is set. */
  lemma FullwidthLowercase(s: string, processAlphabet: bool, i: nat)
    requires i < |s| && IsLowerAscii(s[i])
    ensures ToFullwidth(s, processAlphabet)[i] == (if processAlphabet then HalfFull(s[i]).value else s[i])
    ensures ToFullwidth(s, processAlphabet)[i] != s[i] <==> processAlphabet
  {
  }

  lemma SampleEntries()
    ensures ToFullwidth(",.-/[]", false) == "\U{3001}\U{3002}\U{30FC}\U{30FB}\U{300C}\U{300D}"
  {
  }

  /** Converting twice is converting once: no table value is a key of either table. */
  lemma FullwidthIdempotent(s: string, processAlphabet: bool)
    ensures ToFullwidth(ToFullwidth(s, processAlphabet), processAlphabet) == ToFullwidth(s, processAlphabet)
  {
  }

  /** Strings that contain no full-width form from the punctuation table. */
  predicate NoAzookeyValue(s: string) {
    forall i :: 0 <= i < |s| ==> FullHalfAzookey(s[i]).None?
  }

  /** Half-width conversion undoes the punctuation conversion on such strings. */
  lemma HalfwidthAfterFullwidth(s: string)
    requires NoAzookeyValue(s)
    ensures ToHalfwidth(ToFullwidth(s, false)) == s
  {
    forall i | 0 <= i < |s|
      ensures ToHalfwidth(ToFullwidth(s, false))[i] == s[i]
    {
      AzookeyReverseIsInverse(s[i]);
    }
  }

  /** Full-width letters are not in the punctuation table, so `to_halfwidth` keeps them. */
  lemma HalfwidthKeepsLetters(s: string)
    requires forall i :: 0 <= i < |s| ==> 'a' as int + 0xFEE0 <= s[i] as int <= 'z' as int + 0xFEE0
    ensures ToHalfwidth(s) == s
  {
    forall i | 0 <= i < |s|
      ensures ToHalfwidth(s)[i] == s[i]
    {
      AzookeyReverseIsInverse(s[i]);
    }
  }
}
