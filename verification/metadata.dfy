/**
 * Document metadata values and the sanitisation the Qdrant adapter applies
 * before a payload is stored (`_clean_metadata_for_qdrant`).
 */
module Metadata {
  import Text

  /** A Python metadata value, by its runtime type. */
  datatype Value =
    | Null                      // None
    | Int(i: int)               // int
    | Float(text: string)       // float, carried opaquely as its repr text
    | Str(s: string)            // str
    | Bool(b: bool)             // bool
    | List(items: seq<Value>)   // list
    | Other(strText: string, reprText: string)  // any other object, carried as its str() and repr() texts

  /** The types Qdrant accepts in a payload as they are. */
  predicate IsScalar(v: Value) {
    v.Int? || v.Float? || v.Str? || v.Bool?
  }

  /** Python's `repr(v)`, used for the items of a list. */
  function Repr(v: Value): string
    decreases v
  {
    match v
    case Null => "None"
    case Int(i) => Text.IntToDecimal(i)
    case Float(t) => t
    case Str(s) => StrRepr(s)
    case Bool(b) => if b then "True" else "False"
    case List(items) =>
      "[" + Text.Join(seq(|items|, k requires 0 <= k < |items| => Repr(items[k])), ", ") + "]"
    case Other(_, r) => r
  }

  /** The quote `repr` puts around a string: double only when that avoids escaping a single quote. */
  function ReprQuote(s: string): (q: char)
    ensures q == '\'' || q == '"'
    ensures q == '"' <==> '\'' in s && '"' !in s
  {
    if '\'' in s && '"' !in s then '"' else '\''
  }

  /** ASCII control characters other than tab, newline and carriage return, which `repr` writes as `\xNN`. */
  predicate IsHexEscaped(c: char) {
    (c < ' ' || c as int == 0x7F) && c != '\t' && c != '\n' && c != '\r'
  }

  /** The lower-case hex digit of `i`. */
  function HexChar(i: int): char
    requires 0 <= i < 16
  {
    if i < 10 then ('0' as int + i) as char else ('a' as int + i - 10) as char
  }

  /** The value of a lower-case hex digit. */
  function HexValue(c: char): int {
    if '0' <= c <= '9' then c as int - '0' as int
    else if 'a' <= c <= 'f' then c as int - 'a' as int + 10
    else -1
  }

  /** How `repr` writes one character of a string quoted with `q`. */
  function EscapeChar(c: char, q: char): (e: string)
    ensures 0 < |e|
    ensures e[0] == '\\' <==> c == '\\' || c == q || c == '\t' || c == '\n' || c == '\r' || IsHexEscaped(c)
  {
    if c == '\\' then "\\\\"
    else if c == q then ['\\', q]
    else if c == '\t' then "\\t"
    else if c == '\n' then "\\n"
    else if c == '\r' then "\\r"
    else if IsHexEscaped(c) then ['\\', 'x', HexChar(c as int / 16), HexChar(c as int % 16)]
    else [c]
  }

  /** The characters of `s` as `repr` writes them between quotes `q`. */
  function Escape(s: string, q: char): string
    decreases |s|
  {
    if s == [] then [] else EscapeChar(s[0], q) + Escape(s[1..], q)
  }

  /** Python's `repr` of a `str`: the escaped text between the chosen quotes. */
  function StrRepr(s: string): (r: string)
    ensures 2 <= |r| && r[0] == r[|r| - 1] == ReprQuote(s)
  {
    var q := ReprQuote(s);
    [q] + Escape(s, q) + [q]
  }

  /**
   * Reads back what `Escape` writes: the inverse partner used to state that
   * no two strings share a repr.
   */
  function Unescape(t: string): string
    decreases |t|
  {
    if t == [] then []
    else if t[0] != '\\' || |t| == 1 then [t[0]] + Unescape(t[1..])
    else if t[1] == 't' then "\t" + Unescape(t[2..])
    else if t[1] == 'n' then "\n" + Unescape(t[2..])
    else if t[1] == 'r' then "\r" + Unescape(t[2..])
    else if t[1] == 'x' && |t| >= 4 && 0 <= HexValue(t[2]) && 0 <= HexValue(t[3]) then
      [(HexValue(t[2]) * 16 + HexValue(t[3])) as char] + Unescape(t[4..])
    else [t[1]] + Unescape(t[2..])
  }

  /** Escaping works character by character. */
  lemma {:induction false} EscapeAppend(a: string, b: string, q: char)
    ensures Escape(a + b, q) == Escape(a, q) + Escape(b, q)
    decreases |a|
  {
    if a == [] {
      assert a + b == b;
    } else {
      assert (a + b)[0] == a[0];
      assert (a + b)[1..] == a[1..] + b;
      EscapeAppend(a[1..], b, q);
    }
  }

  /** Text without backslashes, the quote or control characters is written as it is. */
  lemma {:induction false} EscapePlain(s: string, q: char)
    requires forall i :: 0 <= i < |s| ==> EscapeChar(s[i], q) == [s[i]]
    ensures Escape(s, q) == s
    decreases |s|
  {
    if s != [] {
      EscapePlain(s[1..], q);
    }
  }

  lemma HexDigitRoundTrip(i: int)
    requires 0 <= i < 16
    ensures HexValue(HexChar(i)) == i
  {
  }

  /** Reading back one escaped character, whatever follows it. */
  lemma UnescapeChar(c: char, q: char, rest: string)
    requires q == '\'' || q == '"'
    ensures Unescape(EscapeChar(c, q) + rest) == [c] + Unescape(rest)
  {
    var t := EscapeChar(c, q) + rest;
    if IsHexEscaped(c) && c != q && c != '\\' {
      var hi, lo := c as int / 16, c as int % 16;
      HexDigitRoundTrip(hi);
      HexDigitRoundTrip(lo);
      assert t[4..] == rest;
      assert (hi * 16 + lo) as char == c;
    } else if EscapeChar(c, q)[0] == '\\' {
      assert t[2..] == rest;
    } else {
      assert t[1..] == rest;
    }
  }

  /** `Unescape` undoes `Escape` for either quote `repr` chooses. */
  lemma {:induction false} EscapeRoundTrip(s: string, q: char)
    requires q == '\'' || q == '"'
    ensures Unescape(Escape(s, q)) == s
    decreases |s|
  {
    if s != [] {
      UnescapeChar(s[0], q, Escape(s[1..], q));
      EscapeRoundTrip(s[1..], q);
    }
  }

  /** The repr of a string determines it: strip the quotes and read the escapes back. */
  lemma StrReprRoundTrip(s: string)
    ensures var r := StrRepr(s); Unescape(r[1..|r| - 1]) == s
  {
    var q := ReprQuote(s);
    var r := StrRepr(s);
    assert r[1..|r| - 1] == Escape(s, q);
    EscapeRoundTrip(s, q);
  }

  /**
   * Python's `str(v)`: the string itself for a `str`, the object's own `str()`
   * text for any other object, and otherwise its repr, so the items of a list
   * are always shown by their repr.
   */
  function Display(v: Value): string {
    match v
    case Str(s) => s
    case Other(t, _) => t
    case _ => Repr(v)
  }

  /** The sanitisation of one value. */
  function CleanValue(v: Value): (r: Value)
    ensures IsScalar(r)
    ensures v.Null? ==> r == Str("")
    ensures IsScalar(v) ==> r == v
    ensures !v.Null? && !IsScalar(v) ==> r == Str(Display(v))
  {
    if v.Null? then Str("")
    else if IsScalar(v) then v
    else Str(Display(v))
  }

  /** Every value of `m` is one Qdrant stores as it is. */
  predicate AllScalar(m: map<string, Value>) {
    forall k :: k in m ==> IsScalar(m[k])
  }

  /**
   * `_clean_metadata_for_qdrant`: keeps exactly the input keys, turns `None`
   * into `""`, passes scalars through and stringifies everything else.
   */
  function Clean(m: map<string, Value>): (r: map<string, Value>)
    ensures r.Keys == m.Keys
    ensures AllScalar(r)
    ensures forall k :: k in m && m[k].Null? ==> r[k] == Str("")
    ensures forall k :: k in m && IsScalar(m[k]) ==> r[k] == m[k]
    ensures forall k :: k in m && !m[k].Null? && !IsScalar(m[k]) ==> r[k] == Str(Display(m[k]))
  {
    map k | k in m :: CleanValue(m[k])
  }

  /** Sanitising a sanitised payload changes nothing. */
  lemma CleanIdempotent(m: map<string, Value>)
    ensures Clean(Clean(m)) == Clean(m)
  {
  }

  /** Sanitisation is the identity exactly on payloads that are already all scalar. */
  lemma CleanFixesExactlyScalars(m: map<string, Value>)
    ensures Clean(m) == m <==> AllScalar(m)
  {
    if Clean(m) == m {
      assert AllScalar(m);
    }
    if AllScalar(m) {
      assert forall k :: k in m ==> Clean(m)[k] == m[k];
    }
  }

  /** The list `[1, 2, 3]` is shown as `"[1, 2, 3]"`. */
  lemma ShowSmallList()
    ensures Display(List([Int(1), Int(2), Int(3)])) == "[1, 2, 3]"
  {
    var items := [Int(1), Int(2), Int(3)];
    var parts := seq(|items|, k requires 0 <= k < |items| => Repr(items[k]));
    assert parts == ["1", "2", "3"];
    assert Text.Join(parts[2..], ", ") == "3";
    assert Text.Join(parts[1..], ", ") == "2" + ", " + "3";
    assert Text.Join(parts, ", ") == "1, 2, 3";
  }

  /** A list of ints and a `None` sanitise to `"[1, 2, 3]"` and `""`. */
  lemma CleanListAndNull()
    ensures Clean(map["tags" := List([Int(1), Int(2), Int(3)]), "flag" := Null])
         == map["tags" := Str("[1, 2, 3]"), "flag" := Str("")]
  {
    ShowSmallList();
    var m := map["tags" := List([Int(1), Int(2), Int(3)]), "flag" := Null];
    var r := Clean(m);
    assert r["tags"] == Str("[1, 2, 3]");
    assert r["flag"] == Str("");
  }

  /** A one-item list is stored as its item's repr in brackets. */
  lemma CleanSingletonList(v: Value)
    ensures CleanValue(List([v])) == Str("[" + Repr(v) + "]")
  {
    var items := [v];
    var parts := seq(|items|, k requires 0 <= k < |items| => Repr(items[k]));
    assert parts == [Repr(v)];
    assert Text.Join(parts, ", ") == Repr(v);
  }

  /** Escaping text that is plain except for one character. */
  lemma EscapeAround(a: string, c: char, b: string, q: char)
    requires forall i :: 0 <= i < |a| ==> EscapeChar(a[i], q) == [a[i]]
    requires forall i :: 0 <= i < |b| ==> EscapeChar(b[i], q) == [b[i]]
    ensures Escape(a + [c] + b, q) == a + EscapeChar(c, q) + b
  {
    EscapePlain(a, q);
    EscapePlain(b, q);
    EscapeAppend(a, [c], q);
    EscapeAppend(a + [c], b, q);
    assert Escape([c], q) == EscapeChar(c, q) by {
      assert [c][1..] == [];
    }
  }

  /** `repr("C:\\docs")` doubles the backslash. */
  lemma BackslashRepr()
    ensures Repr(Str("C:\\docs")) == "'C:\\\\docs'"
  {
    var s := "C:\\docs";
    assert s == "C:" + ['\\'] + "docs";
    assert ReprQuote(s) == '\'';
    EscapeAround("C:", '\\', "docs", '\'');
    assert "'C:\\\\docs'" == ['\''] + ("C:" + "\\\\" + "docs") + ['\''];
  }

  /** `repr("a\nb")` writes the newline as `\n`. */
  lemma NewlineRepr()
    ensures Repr(Str("a\nb")) == "'a\\nb'"
  {
    var s := "a\nb";
    assert s == "a" + ['\n'] + "b";
    assert ReprQuote(s) == '\'';
    EscapeAround("a", '\n', "b", '\'');
    assert "'a\\nb'" == ['\''] + ("a" + "\\n" + "b") + ['\''];
  }

  /** A listed path is stored with its backslash doubled: `["C:\\docs"]` becomes `"['C:\\\\docs']"`. */
  lemma ListedBackslashEscaped()
    ensures CleanValue(List([Str("C:\\docs")])) == Str("['C:\\\\docs']")
  {
    CleanSingletonList(Str("C:\\docs"));
    BackslashRepr();
    var r := Repr(Str("C:\\docs"));
    assert "[" + r + "]" == "['C:\\\\docs']";
  }

  /** A listed newline is stored as its escape: `["a\nb"]` becomes `"['a\\nb']"`. */
  lemma ListedNewlineEscaped()
    ensures CleanValue(List([Str("a\nb")])) == Str("['a\\nb']")
  {
    CleanSingletonList(Str("a\nb"));
    NewlineRepr();
    var r := Repr(Str("a\nb"));
    assert "[" + r + "]" == "['a\\nb']";
  }

  /**
   * An object inside a list is shown by its repr, not by its own `str()` text:
   * a list holding `datetime.date(2024, 1, 1)` is stored as
   * `"[datetime.date(2024, 1, 1)]"`, while the date on its own is stored as
   * `"2024-01-01"`.
   */
  lemma ListItemsShownByRepr(strText: string, reprText: string)
    ensures CleanValue(Other(strText, reprText)) == Str(strText)
    ensures CleanValue(List([Other(strText, reprText)])) == Str("[" + reprText + "]")
  {
    var items := [Other(strText, reprText)];
    var parts := seq(|items|, k requires 0 <= k < |items| => Repr(items[k]));
    assert parts == [reprText];
    assert Text.Join(parts, ", ") == reprText;
  }
}
