/** Library.greet: a greeting for a name, falling back to "World" when the name is null or
    blank. */
module Greetings {
  import opened Wrappers

  /** Character.isWhitespace: the Unicode space, line and paragraph separators other than
      the no-break spaces U+00A0, U+2007 and U+202F, plus the controls U+0009..U+000D and
      U+001C..U+001F. */
  predicate IsWhitespace(c: char)
  {
    var n := c as int;
    (9 <= n <= 13) || (28 <= n <= 32) || n == 0x1680
    || (0x2000 <= n <= 0x2006) || (0x2008 <= n <= 0x200A)
    || n == 0x2028 || n == 0x2029 || n == 0x205F || n == 0x3000
  }

  /** String.isBlank: empty, or white space throughout. */
  predicate IsBlank(s: string)
  {
    forall i :: 0 <= i < |s| ==> IsWhitespace(s[i])
  }

  const Prefix: string := "Hello, "
  const Fallback: string := "World"

  /** greet(name): the result is "Hello, " followed by the person greeted and "!"; the person
      is "World" for a null or blank name and the name itself, untrimmed, otherwise. */
  function Greet(name: Option<string>): (r: string)
    ensures |r| >= |Prefix| + 1 && r[..|Prefix|] == Prefix && r[|r| - 1] == '!'
    ensures Greeted(r) == if name.None? || IsBlank(name.value) then Fallback else name.value
  {
    var who := if name.None? || IsBlank(name.value) then Fallback else name.value;
    var r := Prefix + who + "!";
    assert r[|Prefix|..|r| - 1] == who;
    r
  }

  /** The part of a greeting between "Hello, " and the final "!". */
  function Greeted(greeting: string): string
    requires |greeting| >= |Prefix| + 1
  {
    greeting[|Prefix|..|greeting| - 1]
  }

  /** greet(null) and greet of a blank name (empty, spaces, tabs, newlines) are
      "Hello, World!". */
  lemma NullOrBlankGreetsTheWorld(name: string)
    requires IsBlank(name)
    ensures Greet(None) == "Hello, World!"
    ensures Greet(Some(name)) == "Hello, World!"
    ensures IsBlank("") && IsBlank(" \t\n")
  {
    assert Greet(None)[..] == Prefix + Fallback + "!";
  }

  /** Any other name is greeted verbatim, surrounding spaces included, and distinct such names
      get distinct greetings. */
  lemma OtherNamesAreGreetedVerbatim(name: string, other: string)
    requires !IsBlank(name) && !IsBlank(other)
    ensures Greet(Some(name)) == Prefix + name + "!"
    ensures Greet(Some(name)) == Greet(Some(other)) <==> name == other
  {
    var g, h := Greet(Some(name)), Greet(Some(other));
    assert Greeted(g) == name && Greeted(h) == other;
    assert g == Prefix + Greeted(g) + "!";
  }

  /** Examples: a name with surrounding spaces keeps them. */
  lemma GreetExamples()
    ensures Greet(Some(" Ana ")) == "Hello,  Ana !"
  {
    assert " Ana "[1] == 'A' && !IsWhitespace('A');
    OtherNamesAreGreetedVerbatim(" Ana ", " Ana ");
  }
}
