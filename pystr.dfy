/** Python's `str()` and `repr()` on attribute values, and the fact the subnet
    check rests on: a marker word occurs in `str(v)` exactly when it occurs in
    one of the strings inside `v`. */
module PyStr {
  import opened Python
  import opened Substring

  /** One lower-case hexadecimal digit, as `repr` writes it in `\xhh`. */
  function HexDigit(d: int): (c: char)
    requires 0 <= d < 16
    ensures '0' <= c <= '9' || 'a' <= c <= 'f'
  {
    if d < 10 then ('0' as int + d) as char else ('a' as int + d - 10) as char
  }

  /** Characters of the Latin-1 range that `repr` writes as `\xhh`: the C0
      and C1 control characters, DEL, the no-break space and the soft hyphen
      (tab, newline and carriage return have their own escapes). */
  predicate NeedsHexEscape(c: char) {
    c as int < 0x20 || 0x7f <= c as int <= 0xa0 || c as int == 0xad
  }

  /** The quote `repr` encloses a string in: a double quote when the string
      holds a single quote and no double quote, a single quote otherwise. */
  function QuoteFor(s: string): (q: char)
    ensures q == '\'' || q == '"'
  {
    if '\'' in s && '"' !in s then '"' else '\''
  }

  /** How `repr` writes one character of a string enclosed in quote `q`. */
  function EscapeChar(c: char, q: char): string {
    if c == q || c == '\\' then ['\\', c]
    else if c == '\t' then "\\t"
    else if c == '\n' then "\\n"
    else if c == '\r' then "\\r"
    else if NeedsHexEscape(c) then ['\\', 'x', HexDigit(c as int / 16), HexDigit(c as int % 16)]
    else [c]
  }

  /** The body of `repr(s)` between its quotes. */
  function Escape(s: string, q: char): string
    decreases |s|
  {
    if s == [] then [] else EscapeChar(s[0], q) + Escape(s[1..], q)
  }

  /** `repr(v)`: how a value is written as an element of a list. */
  function Repr(v: PyVal): string
    decreases v
  {
    match v
    case PyNone => "None"
    case Str(s) => var q := QuoteFor(s); [q] + Escape(s, q) + [q]
    case PyList(xs) => "[" + JoinReprs(xs) + "]"
  }

  /** `", ".join(repr(x) for x in xs)`. */
  function JoinReprs(xs: seq<PyVal>): string
    decreases xs
  {
    if |xs| == 0 then ""
    else if |xs| == 1 then Repr(xs[0])
    else Repr(xs[0]) + ", " + JoinReprs(xs[1..])
  }

  /** `str(v)`: a string is itself, everything else is its `repr`. */
  function ToStr(v: PyVal): string {
    match v
    case Str(s) => s
    case _ => Repr(v)
  }

  predicate IsAsciiLetter(c: char) {
    'a' <= c <= 'z' || 'A' <= c <= 'Z'
  }

  /** Letters that can follow the backslash of an escape sequence: `\t`, `\n`,
      `\r`, `\x`, the hexadecimal digits, and the `\u` and `\U` that Python
      writes for non-printable characters outside Latin-1. */
  predicate IsEscapeLetter(c: char) {
    'a' <= c <= 'f' || c == 'n' || c == 'r' || c == 't' || c == 'x' || c == 'u' || c == 'U'
  }

  /** A word made of ASCII letters that does not begin with a letter an escape
      sequence can contain, such as `private`. */
  predicate IsMarker(n: string) {
    && |n| > 0
    && (forall i :: 0 <= i < |n| ==> IsAsciiLetter(n[i]))
    && !IsEscapeLetter(n[0])
  }

  /** Reference definition: `n` occurs in one of the strings inside `v`, where
      `None` stands for the text `None`. */
  predicate Mentions(n: string, v: PyVal)
    decreases v
  {
    match v
    case PyNone => Contains(n, "None")
    case Str(s) => Contains(n, s)
    case PyList(xs) => MentionsAny(n, xs)
  }

  predicate MentionsAny(n: string, xs: seq<PyVal>)
    decreases xs
  {
    |xs| > 0 && (Mentions(n, xs[0]) || MentionsAny(n, xs[1..]))
  }

  /** Escaping leaves letters alone and writes every other escaped character
      as a backslash sequence, so a word of letters is a prefix of the escaped
      text exactly when it is a prefix of the original. */
  lemma {:induction false} EscapePrefix(w: string, t: string, q: char)
    requires q == '\'' || q == '"'
    requires forall i :: 0 <= i < |w| ==> IsAsciiLetter(w[i])
    ensures IsPrefix(w, Escape(t, q)) <==> IsPrefix(w, t)
    decreases |t|
  {
    if w != [] && t != [] {
      var c := t[0];
      assert t == [c] + t[1..];
      if EscapeChar(c, q) == [c] {
        assert Escape(t, q) == [c] + Escape(t[1..], q);
        EscapePrefix(w[1..], t[1..], q);
        PrefixCons(w, c, Escape(t[1..], q));
        PrefixCons(w, c, t[1..]);
      } else {
        assert Escape(t, q)[0] == '\\';
        assert w[0] != t[0];
      }
    }
  }

  /** No character of an escape sequence can begin a marker word. */
  lemma EscapeSequenceNoMarkerStart(c: char, q: char, m: char)
    requires q == '\'' || q == '"'
    requires EscapeChar(c, q) != [c]
    requires IsAsciiLetter(m) && !IsEscapeLetter(m)
    ensures forall j :: 0 <= j < |EscapeChar(c, q)| ==> EscapeChar(c, q)[j] != m
  {}

  /** A marker word occurs in the escaped body of `repr(s)` exactly when it
      occurs in `s`. */
  lemma {:induction false} EscapeContains(n: string, s: string, q: char)
    requires q == '\'' || q == '"'
    requires IsMarker(n)
    ensures Contains(n, Escape(s, q)) <==> Contains(n, s)
    decreases |s|
  {
    if s != [] {
      var c := s[0];
      var rest := Escape(s[1..], q);
      EscapeContains(n, s[1..], q);
      assert Escape(s, q) == EscapeChar(c, q) + rest;
      if EscapeChar(c, q) == [c] {
        assert Escape(s, q)[1..] == rest;
        EscapePrefix(n, s, q);
      } else {
        EscapeSequenceNoMarkerStart(c, q, n[0]);
        ContainsNoStart(n, EscapeChar(c, q), rest);
        assert n[0] != s[0];
      }
    }
  }

  /** A marker word occurs in `repr(v)` exactly when `v` mentions it: the
      quotes, brackets and separators `repr` adds are not letters. */
  lemma {:induction false} ReprMentions(n: string, v: PyVal)
    requires IsMarker(n)
    ensures Contains(n, Repr(v)) <==> Mentions(n, v)
    decreases v
  {
    match v
    case PyNone =>
    case Str(s) =>
      var q := QuoteFor(s);
      var e := Escape(s, q);
      assert q !in n;
      assert Repr(v) == [] + [q] + (e + [q]);
      ContainsAround(n, [], q, e + [q]);
      assert e + [q] == e + [q] + [];
      ContainsAround(n, e, q, []);
      EscapeContains(n, s, q);
    case PyList(xs) =>
      var j := JoinReprs(xs);
      assert '[' !in n && ']' !in n;
      assert Repr(v) == [] + ['['] + (j + [']']);
      ContainsAround(n, [], '[', j + [']']);
      assert j + [']'] == j + [']'] + [];
      ContainsAround(n, j, ']', []);
      JoinMentions(n, xs);
  }

  /** A marker word occurs in the joined reprs exactly when one of the
      elements mentions it. */
  lemma {:induction false} JoinMentions(n: string, xs: seq<PyVal>)
    requires IsMarker(n)
    ensures Contains(n, JoinReprs(xs)) <==> MentionsAny(n, xs)
    decreases xs
  {
    if |xs| == 1 {
      ReprMentions(n, xs[0]);
      assert !MentionsAny(n, xs[1..]);
    } else if |xs| > 1 {
      var head := Repr(xs[0]);
      var tail := JoinReprs(xs[1..]);
      assert ',' !in n && ' ' !in n;
      assert JoinReprs(xs) == head + [','] + ([' '] + tail);
      ContainsAround(n, head, ',', [' '] + tail);
      assert [' '] + tail == [] + [' '] + tail;
      ContainsAround(n, [], ' ', tail);
      ReprMentions(n, xs[0]);
      JoinMentions(n, xs[1..]);
    }
  }

  /** A marker word occurs in `str(v)` exactly when `v` mentions it. */
  lemma StrMentions(n: string, v: PyVal)
    requires IsMarker(n)
    ensures Contains(n, ToStr(v)) <==> Mentions(n, v)
  {
    if v.PyList? {
      ReprMentions(n, v);
    }
  }
}
