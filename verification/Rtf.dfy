/** The scanner that strips Rich Text Format markup (src/book2skill/extractors/rtf_extractor.py, lines 53-243). */
module Rtf {
  import opened Knowledge

  /** What the scanner asks of the runtime about characters: which are letters, which are digits, and the
      character whose code two characters write in hexadecimal, if they write one. */
  datatype Alphabet = Alphabet(letter: char -> bool, digit: char -> bool, hex: (char, char) -> Option<char>)

  const SKIP_DESTINATIONS: set<string> :=
    {"fonttbl", "stylesheet", "colortbl", "info", "pict", "header", "footer", "footerpar", "headerpar",
     "listtable", "listoverridetable", "rsidtbl", "latentstyles"}

  predicate Lower(c: char) { 'a' <= c <= 'z' }

  predicate Markup(c: char) { c in {'\\', '{', '}', '\'', '*', '~', '_', '-', ' ', '\n', '\r'} }

  function HexDigit(v: nat): char requires v < 16 { "0123456789abcdef"[v] }

  /** ASCII is classified as usual and no character is both a letter and a digit. */
  ghost predicate Sane(al: Alphabet) {
    && (forall c {:trigger al.letter(c)} | Lower(c) :: al.letter(c))
    && (forall c {:trigger al.digit(c)} | '0' <= c <= '9' :: al.digit(c))
    && (forall c | Markup(c) :: !al.letter(c) && !al.digit(c))
    && (forall c :: !(al.letter(c) && al.digit(c)))
    && forall a: nat, b: nat | a < 16 && b < 16 :: al.hex(HexDigit(a), HexDigit(b)) == Some((16 * a + b) as char)
  }

  // ---- control words ----

  /** The end of the run of characters of a class that starts at `i`. */
  function RunEnd(text: string, i: nat, of: char -> bool): (j: nat)
    requires i <= |text|
    ensures i <= j <= |text|
    ensures forall k | i <= k < j :: of(text[k])
    decreases |text| - i
  {
    if i < |text| && of(text[i]) then RunEnd(text, i + 1, of) else i
  }

  /** `i + 1` if the character `c` is at `i`, and `i` otherwise. */
  function Past(text: string, i: nat, c: char): (j: nat)
    requires i <= |text|
    ensures i <= j <= |text| && j <= i + 1
  {
    if i < |text| && text[i] == c then i + 1 else i
  }

  /** The name of the control word whose backslash is at `i`. */
  function Word(al: Alphabet, text: string, i: nat): string
    requires i < |text|
  {
    text[i + 1..RunEnd(text, i + 1, al.letter)]
  }

  /** The end of the control word: name, number, one space. */
  function WordEnd(al: Alphabet, text: string, i: nat): (j: nat)
    requires i < |text|
    ensures i < j <= |text|
  {
    Past(text, RunEnd(text, Past(text, RunEnd(text, i + 1, al.letter), '-'), al.digit), ' ')
  }

  method SkipRun(text: string, i: nat, of: char -> bool) returns (j: nat)
    requires i <= |text|
    ensures j == RunEnd(text, i, of)
  {
    j := i;
    while j < |text| && of(text[j])
      invariant i <= j <= |text|
      invariant RunEnd(text, j, of) == RunEnd(text, i, of)
    {
      j := j + 1;
    }
  }

  method SkipControlWord(al: Alphabet, text: string, i: nat) returns (j: nat)
    requires i < |text|
    ensures j == WordEnd(al, text, i)
  {
    j := SkipRun(text, i + 1, al.letter);
    if j < |text| && text[j] == '-' {
      j := j + 1;
    }
    j := SkipRun(text, j, al.digit);
    if j < |text| && text[j] == ' ' {
      j := j + 1;
    }
  }

  method PeekControlWord(al: Alphabet, text: string, i: nat) returns (word: string)
    requires i < |text|
    ensures word == Word(al, text, i)
  {
    var j := SkipRun(text, i + 1, al.letter);
    word := text[i + 1..j];
  }

  // ---- escapes ----

  /** Where a `\u` escape ends: an optional sign, digits, one space, one replacement in hexadecimal. */
  function UnicodeEnd(al: Alphabet, text: string, i: nat): (j: nat)
    requires i < |text|
    ensures i < j <= |text|
  {
    var k := Past(text, RunEnd(text, Past(text, i + 1, '-'), al.digit), ' ');
    if k + 3 < |text| && text[k] == '\\' && text[k + 1] == '\'' then k + 4 else k
  }

  predicate StartsWord(al: Alphabet, text: string, i: nat, word: string) {
    && i + |word| <= |text| && text[i..i + |word|] == word
    && (i + |word| == |text| || !al.letter(text[i + |word|]))
  }

  datatype Escape = Escape(next: nat, out: string)

  /** What the escape whose backslash is at `i` stands for, and where it ends. */
  function EscapeAt(al: Alphabet, text: string, i: nat): (e: Escape)
    requires i < |text|
    ensures i < e.next <= |text|
  {
    if i + 1 == |text| then Escape(i + 1, "\\")
    else
      var c := text[i + 1];
      if c == '\'' && i + 3 < |text| then
        var code := al.hex(text[i + 2], text[i + 3]);
        Escape(i + 4, if code.Some? then [code.value] else "")
      else if c == 'u' && i + 2 < |text| then Escape(UnicodeEnd(al, text, i + 1), "?")
      else if c in {'\\', '{', '}'} then Escape(i + 2, [c])
      else if c == '~' then Escape(i + 2, "\U{00A0}")
      else if c == '_' then Escape(i + 2, "\U{2011}")
      else if c == '\r' && i + 2 < |text| && text[i + 2] == '\n' then Escape(i + 3, "")
      else if c == '\n' || c == '\r' then Escape(i + 2, "")
      else Escape(WordEnd(al, text, i), if StartsWord(al, text, i + 1, "par") || StartsWord(al, text, i + 1, "line") then "\n"
                                        else if StartsWord(al, text, i + 1, "tab") then " " else "")
  }

  method HandleEscape(al: Alphabet, text: string, i: nat, result: string) returns (j: nat, grown: string)
    requires i < |text|
    ensures Escape(j, grown) == EscapeAt(al, text, i).(out := result + EscapeAt(al, text, i).out)
    ensures i < j <= |text|
  {
    hide RunEnd, WordEnd, StartsWord;
    j, grown := i + 1, result;
    if j >= |text| {
      return j, result + "\\";
    }
    var c := text[j];
    if c == '\'' && j + 2 < |text| {
      var code := al.hex(text[j + 1], text[j + 2]);
      if code.Some? {
        grown := result + [code.value];
      }
      return j + 3, grown;
    }
    if c == 'u' && j + 1 < |text| {
      var k := j + 1;
      if text[k] == '-' {
        k := k + 1;
      }
      k := SkipRun(text, k, al.digit);
      if k < |text| && text[k] == ' ' {
        k := k + 1;
      }
      if k + 3 < |text| && text[k] == '\\' && text[k + 1] == '\'' {
        k := k + 4;
      }
      return k, result + "?";
    }
    if c in {'\\', '{', '}'} {
      return j + 1, result + [c];
    }
    if c == '~' {
      return j + 1, result + "\U{00A0}";
    }
    if c == '_' {
      return j + 1, result + "\U{2011}";
    }
    if c == '\n' || c == '\r' {
      if c == '\r' && j + 1 < |text| && text[j + 1] == '\n' {
        return j + 2, grown;
      }
      return j + 1, grown;
    }
    if StartsWord(al, text, j, "par") || StartsWord(al, text, j, "line") {
      grown := result + "\n";
    } else if StartsWord(al, text, j, "tab") {
      grown := result + " ";
    }
    j := SkipControlWord(al, text, i);
  }

  // ---- the skip stack ----

  /** The stack of skip flags with the count that answers "is any flag set" at once. */
  class SkipStack {
    var flags: seq<bool>
    var count: nat

    /** Unset flags, then `count` set ones, with an unset flag at the bottom. */
    ghost predicate Valid()
      reads this
    {
      && count < |flags|
      && forall k | 0 <= k < |flags| :: flags[k] <==> |flags| - count <= k
    }

    constructor ()
      ensures Valid() && flags == [false] && count == 0
    {
      flags, count := [false], 0;
    }

    method Skipping() returns (any: bool)
      requires Valid()
      ensures any <==> exists k | 0 <= k < |flags| :: flags[k]
      ensures any <==> count > 0
    {
      any := count > 0;
      assert any ==> flags[|flags| - 1];
    }

    method Push(value: bool)
      requires Valid() && (value || count == 0)
      modifies this
      ensures Valid() && flags == old(flags) + [value]
      ensures count == old(count) + if value then 1 else 0
    {
      flags := flags + [value];
      if value {
        count := count + 1;
      }
    }

    method Pop()
      requires Valid()
      modifies this
      ensures Valid()
      ensures flags == if |old(flags)| > 1 then old(flags)[..|old(flags)| - 1] else old(flags)
      ensures count == if old(count) > 0 then old(count) - 1 else 0
    {
      if |flags| <= 1 {
        return;
      }
      var top := flags[|flags| - 1];
      flags := flags[..|flags| - 1];
      if top {
        count := count - 1;
      }
    }
  }

  // ---- the scanner ----

  predicate Ignorable(text: string, i: nat) {
    i + 2 < |text| && text[i] == '{' && text[i + 1] == '\\' && text[i + 2] == '*'
  }

  /** The text the scanner returns from `i` on, `depth` being the number of set flags: the unset ones do not
      matter. */
  function Plain(al: Alphabet, text: string, i: nat, depth: nat): string
    requires i <= |text|
    decreases |text| - i
  {
    if i == |text| then ""
    else if Ignorable(text, i) then Plain(al, text, i + 3, depth + 1)
    else if text[i] == '{' then Plain(al, text, i + 1, if depth > 0 then depth + 1 else 0)
    else if text[i] == '}' then Plain(al, text, i + 1, if depth > 0 then depth - 1 else 0)
    else if text[i] == '\\' then
      if depth > 0 then Plain(al, text, WordEnd(al, text, i), depth)
      else if Word(al, text, i) in SKIP_DESTINATIONS then Plain(al, text, WordEnd(al, text, i), 1)
      else EscapeAt(al, text, i).out + Plain(al, text, EscapeAt(al, text, i).next, 0)
    else (if depth > 0 then "" else [text[i]]) + Plain(al, text, i + 1, depth)
  }

  method RtfToText(al: Alphabet, text: string) returns (result: string)
    ensures result == Plain(al, text, 0, 0)
  {
    hide RunEnd, WordEnd, EscapeAt, Word, SkipStack.Valid;
    result := "";
    var i := 0;
    var stack := new SkipStack();
    while i < |text|
      invariant i <= |text| && fresh(stack) && stack.Valid()
      invariant result + Plain(al, text, i, stack.count) == Plain(al, text, 0, 0)
      decreases |text| - i
    {
      var c := text[i];
      var skipping := stack.Skipping();
      if c == '{' {
        if i + 1 < |text| && text[i + 1] == '\\' && i + 2 < |text| && text[i + 2] == '*' {
          stack.Push(true);
          i := i + 3;
        } else {
          stack.Push(skipping);
          i := i + 1;
        }
      } else if c == '}' {
        stack.Pop();
        i := i + 1;
      } else if c == '\\' {
        if skipping {
          i := SkipControlWord(al, text, i);
        } else {
          var dest := PeekControlWord(al, text, i);
          if dest in SKIP_DESTINATIONS {
            stack.Push(true);
            i := SkipControlWord(al, text, i);
          } else {
            i, result := HandleEscape(al, text, i, result);
          }
        }
      } else {
        if !skipping {
          result := result + [c];
        }
        i := i + 1;
      }
    }
  }

  // ---- skipped groups ----

  /** Where the group that is `depth` braces deep at `i` ends: just after the brace that closes it, counting every
      brace of the text, or at the end of the text. */
  function Close(text: string, i: nat, depth: nat): (j: nat)
    requires i <= |text|
    ensures i <= j <= |text|
    decreases |text| - i
  {
    if i == |text| || depth == 0 then i
    else Close(text, i + 1, if text[i] == '{' then depth + 1 else if text[i] == '}' then depth - 1 else depth)
  }

  predicate NoBrace(text: string, i: nat, j: nat)
    requires i <= j <= |text|
  {
    forall k | i <= k < j :: text[k] !in {'{', '}'}
  }

  lemma {:induction false} CloseFrom(text: string, i: nat, j: nat, depth: nat)
    requires i <= j <= |text| && depth > 0 && NoBrace(text, i, j)
    ensures Close(text, i, depth) == Close(text, j, depth)
    decreases j - i
  {
    if i < j { CloseFrom(text, i + 1, j, depth); }
  }

  lemma WordHasNoBrace(al: Alphabet, text: string, i: nat)
    requires Sane(al) && i < |text| && text[i] == '\\'
    ensures NoBrace(text, i, WordEnd(al, text, i))
  {
    var a := RunEnd(text, i + 1, al.letter);
    var b := Past(text, a, '-');
    var c := RunEnd(text, b, al.digit);
    forall k | i <= k < WordEnd(al, text, i) ensures text[k] !in {'{', '}'} {
      assert k == i || al.letter(text[k]) || text[k] == '-' || al.digit(text[k]) || text[k] == ' ';
      assert Markup('{') && Markup('}');
    }
  }

  /** A skipped group yields nothing, and ends exactly at the brace that matches when every brace counts. */
  lemma {:induction false} SkippedUntilClose(al: Alphabet, text: string, i: nat, depth: nat)
    requires Sane(al) && i <= |text| && depth > 0
    ensures Plain(al, text, i, depth) == Plain(al, text, Close(text, i, depth), 0)
    decreases |text| - i
  {
    hide Sane, WordEnd, EscapeAt, Word;
    if i < |text| {
      if Ignorable(text, i) {
        SkippedUntilClose(al, text, i + 3, depth + 1);
        CloseFrom(text, i + 1, i + 3, depth + 1);
      } else if text[i] == '\\' {
        WordHasNoBrace(al, text, i);
        CloseFrom(text, i, WordEnd(al, text, i), depth);
        SkippedUntilClose(al, text, WordEnd(al, text, i), depth);
      } else if text[i] == '}' && depth == 1 {
        assert Close(text, i, 1) == i + 1;
      } else {
        SkippedUntilClose(al, text, i + 1, if text[i] == '{' then depth + 1 else if text[i] == '}' then depth - 1 else depth);
      }
    } else {
      assert Close(text, i, depth) == i;
    }
  }

  /** Outside a skipped group, an ignorable group and a metadata destination both disappear up to their closing
      brace, and the scan goes on as if they had not been there. */
  lemma GroupsVanish(al: Alphabet, text: string, i: nat)
    requires Sane(al) && i < |text|
    ensures Ignorable(text, i) ==> Plain(al, text, i, 0) == Plain(al, text, Close(text, i + 1, 1), 0)
    ensures text[i] == '\\' && Word(al, text, i) in SKIP_DESTINATIONS
            ==> Plain(al, text, i, 0) == Plain(al, text, Close(text, i, 1), 0)
  {
    hide Sane, WordEnd, EscapeAt, Word;
    if Ignorable(text, i) {
      SkippedUntilClose(al, text, i + 3, 1);
      CloseFrom(text, i + 1, i + 3, 1);
    }
    if text[i] == '\\' && Word(al, text, i) in SKIP_DESTINATIONS {
      WordHasNoBrace(al, text, i);
      CloseFrom(text, i, WordEnd(al, text, i), 1);
      SkippedUntilClose(al, text, WordEnd(al, text, i), 1);
    }
  }

  /** Every brace counts: an escaped one inside a skipped group shifts where the group ends, and takes the text
      after it along. */
  lemma EscapedBraceInSkippedGroup(al: Alphabet)
    requires Sane(al)
    ensures Plain(al, "{\\*\\{}A", 0, 0) == "" && Plain(al, "{\\*\\}A}", 0, 0) == "A"
  {
    hide Sane, EscapeAt, Word, WordEnd;
    var s, t := "{\\*\\{}A", "{\\*\\}A}";
    GroupsVanish(al, s, 0);
    assert Close(s, 6, 1) == Close(s, 7, 1) == 7;
    assert Close(s, 4, 1) == Close(s, 5, 2) == Close(s, 6, 1);
    CloseFrom(s, 1, 4, 1);
    GroupsVanish(al, t, 0);
    CloseFrom(t, 1, 4, 1);
    assert Close(t, 4, 1) == Close(t, 5, 0) == 5;
    assert Plain(al, t, 7, 0) == "";
    assert Plain(al, t, 6, 0) == "";
    assert Plain(al, t, 5, 0) == "A" + Plain(al, t, 6, 0);
  }

  // ---- control words in plain text ----

  /** What a control word of the text stands for, by the description of the scanner. */
  function Meaning(word: string): string {
    if word == "par" || word == "line" then "\n" else if word == "tab" then " " else ""
  }

  lemma {:induction false} PlainRun(al: Alphabet, text: string, i: nat, j: nat)
    requires i <= j <= |text| && forall k | i <= k < j :: text[k] !in {'{', '}', '\\'}
    ensures Plain(al, text, i, 0) == text[i..j] + Plain(al, text, j, 0)
    decreases j - i
  {
    if i < j {
      PlainRun(al, text, i + 1, j);
      assert text[i..j] == [text[i]] + text[i + 1..j];
      assert Plain(al, text, i, 0) == [text[i]] + Plain(al, text, i + 1, 0);
    } else {
      assert text[i..j] == "";
    }
  }

  lemma WordIs(al: Alphabet, text: string, i: nat, word: string)
    requires i < |text| && forall c | c in word :: al.letter(c)
    ensures StartsWord(al, text, i + 1, word) <==> Word(al, text, i) == word
  {
    var e := RunEnd(text, i + 1, al.letter);
    RunStops(text, i + 1, al.letter);
    if StartsWord(al, text, i + 1, word) {
      var f := i + 1 + |word|;
      assert forall k | i + 1 <= k < f :: text[k] == text[i + 1..f][k - i - 1];
      RunIs(text, i + 1, f, al.letter);
    }
  }

  lemma {:induction false} RunStops(text: string, i: nat, of: char -> bool)
    requires i <= |text|
    ensures RunEnd(text, i, of) < |text| ==> !of(text[RunEnd(text, i, of)])
    decreases |text| - i
  {
    if i < |text| && of(text[i]) { RunStops(text, i + 1, of); }
  }

  lemma {:induction false} RunIs(text: string, i: nat, j: nat, of: char -> bool)
    requires i <= j <= |text| && forall k | i <= k < j :: of(text[k])
    requires j < |text| ==> !of(text[j])
    ensures RunEnd(text, i, of) == j
    decreases j - i
  {
    if i < j { RunIs(text, i + 1, j, of); }
  }

  /** A control word stands for what the description says if and only if its name does not start with `u`. Every
      name that does, such as `ul` or `uc`, is taken for a Unicode escape: a question mark appears and the rest of
      the control word is left in the text. */
  lemma ControlWordLaw(al: Alphabet, text: string, i: nat)
    requires Sane(al) && i < |text| && text[i] == '\\'
    requires Word(al, text, i) !in SKIP_DESTINATIONS + {"", "u"}
    ensures Plain(al, text, i, 0) == Meaning(Word(al, text, i)) + Plain(al, text, WordEnd(al, text, i), 0)
            <==> Word(al, text, i)[0] != 'u'
    ensures Word(al, text, i)[0] == 'u'
            ==> Plain(al, text, i, 0) == "?" + text[i + 2..WordEnd(al, text, i)] + Plain(al, text, WordEnd(al, text, i), 0)
  {
    hide Plain, EscapeAt, Word, WordEnd, Sane, Meaning;
    if Word(al, text, i)[0] == 'u' { WordOnU(al, text, i); } else { WordNotOnU(al, text, i); }
  }

  lemma WordOnU(al: Alphabet, text: string, i: nat)
    requires Sane(al) && i < |text| && text[i] == '\\'
    requires Word(al, text, i) !in SKIP_DESTINATIONS + {"", "u"} && Word(al, text, i)[0] == 'u'
    ensures Plain(al, text, i, 0) == "?" + text[i + 2..WordEnd(al, text, i)] + Plain(al, text, WordEnd(al, text, i), 0)
    ensures Plain(al, text, i, 0) != Meaning(Word(al, text, i)) + Plain(al, text, WordEnd(al, text, i), 0)
  {
    hide StartsWord, Sane;
    var w, e := Word(al, text, i), WordEnd(al, text, i);
    assert w[0] == text[i + 1] && al.letter(text[i + 1]);
    assert |w| == 1 ==> w == "u";
    assert text[i + 2] == w[1] && al.letter(text[i + 2]);
    PlainLetter(al, text[i + 2]);
    assert UnicodeEnd(al, text, i + 1) == i + 2;
    assert Plain(al, text, i, 0) == "?" + Plain(al, text, i + 2, 0);
    WordHasOnlyText(al, text, i);
    PlainRun(al, text, i + 2, e);
    assert Meaning(w) == "";
    assert |Plain(al, text, i, 0)| > |Plain(al, text, e, 0)|;
  }

  lemma WordNotOnU(al: Alphabet, text: string, i: nat)
    requires Sane(al) && i < |text| && text[i] == '\\'
    requires Word(al, text, i) !in SKIP_DESTINATIONS + {"", "u"} && Word(al, text, i)[0] != 'u'
    ensures Plain(al, text, i, 0) == Meaning(Word(al, text, i)) + Plain(al, text, WordEnd(al, text, i), 0)
  {
    hide StartsWord, Sane;
    var w, e := Word(al, text, i), WordEnd(al, text, i);
    assert w[0] == text[i + 1] && al.letter(text[i + 1]);
    PlainLetter(al, text[i + 1]);
    AsciiLetters(al);
    WordIs(al, text, i, "par");
    WordIs(al, text, i, "line");
    WordIs(al, text, i, "tab");
    assert EscapeAt(al, text, i) == Escape(e, Meaning(w));
  }

  lemma PlainLetter(al: Alphabet, c: char)
    requires Sane(al) && al.letter(c)
    ensures !Markup(c) && !al.digit(c)
  {
  }

  lemma AsciiLetters(al: Alphabet)
    requires Sane(al)
    ensures forall c | c in "par" || c in "line" || c in "tab" || c in "rtf" :: al.letter(c)
  {
    forall c | c in "par" || c in "line" || c in "tab" || c in "rtf" ensures al.letter(c) {
      assert Lower(c);
    }
  }

  lemma WordHasOnlyText(al: Alphabet, text: string, i: nat)
    requires Sane(al) && i < |text|
    ensures forall k | i < k < WordEnd(al, text, i) :: text[k] !in {'{', '}', '\\'}
  {
    forall k | i < k < WordEnd(al, text, i) ensures text[k] !in {'{', '}', '\\'} {
      assert al.letter(text[k]) || text[k] == '-' || al.digit(text[k]) || text[k] == ' ';
      assert Markup('{') && Markup('}') && Markup('\\');
    }
  }

  // ---- writing and reading back ----

  /** The ways a writer may put one character into a document. */
  datatype Spelling = AsIs | Quoted | Hex | Par | Line | Tab

  predicate Spells(s: Spelling, c: char) {
    match s
    case AsIs => c !in {'\\', '{', '}'}
    case Quoted => c in {'\\', '{', '}'}
    case Hex => c as int < 256
    case Par => c == '\n'
    case Line => c == '\n'
    case Tab => c == ' '
  }

  function Spelled(s: Spelling, c: char): (t: string)
    requires Spells(s, c)
    ensures t != ""
  {
    match s
    case AsIs => [c]
    case Quoted => ['\\', c]
    case Hex => ['\\', '\'', HexDigit(c as int / 16), HexDigit(c as int % 16)]
    case Par => "\\par "
    case Line => "\\line "
    case Tab => "\\tab "
  }

  ghost predicate AllSpelled(ss: seq<Spelling>, chars: string) {
    |ss| == |chars| && forall k | 0 <= k < |chars| :: Spells(ss[k], chars[k])
  }

  function Written(ss: seq<Spelling>, chars: string): string
    requires AllSpelled(ss, chars)
  {
    if chars == "" then "" else Spelled(ss[0], chars[0]) + Written(ss[1..], chars[1..])
  }

  predicate At(text: string, i: nat, part: string) {
    i + |part| <= |text| && text[i..i + |part|] == part
  }

  lemma AtChars(text: string, i: nat, part: string)
    requires At(text, i, part)
    ensures forall k | 0 <= k < |part| :: text[i + k] == part[k]
  {
    forall k | 0 <= k < |part| ensures text[i + k] == part[k] {
      assert text[i + k] == text[i..i + |part|][k];
    }
  }

  lemma AtConcat(text: string, i: nat, a: string, b: string)
    requires At(text, i, a + b)
    ensures At(text, i, a) && At(text, i + |a|, b)
  {
    assert text[i..i + |a|] == text[i..i + |a + b|][..|a|] == a;
    assert text[i + |a|..i + |a| + |b|] == text[i..i + |a + b|][|a|..] == b;
  }

  /** A control word followed by a space. */
  lemma WordAt(al: Alphabet, text: string, i: nat, word: string)
    requires Sane(al) && At(text, i, ['\\'] + word + " ")
    requires forall c | c in word :: al.letter(c)
    ensures text[i] == '\\' && Word(al, text, i) == word && WordEnd(al, text, i) == i + |word| + 2
  {
    hide Sane;
    AtChars(text, i, ['\\'] + word + " ");
    AtConcat(text, i, ['\\'] + word, " ");
    AtConcat(text, i, ['\\'], word);
    var j := i + 1 + |word|;
    assert text[j] == ' ' by { assert (['\\'] + word + " ")[|word| + 1] == ' '; }
    Space(al);
    forall k | i + 1 <= k < j ensures al.letter(text[k]) {
      assert text[k] == text[i + 1..j][k - i - 1];
    }
    RunIs(text, i + 1, j, al.letter);
  }

  lemma Space(al: Alphabet)
    requires Sane(al)
    ensures !al.letter(' ') && !al.digit(' ')
  {
    assert Markup(' ');
  }

  /** A control word of the text and its space are read as what they stand for. */
  lemma WordIsRead(al: Alphabet, text: string, i: nat, word: string)
    requires Sane(al) && word in {"par", "line", "tab"} && At(text, i, ['\\'] + word + " ")
    ensures Plain(al, text, i, 0) == Meaning(word) + Plain(al, text, i + |word| + 2, 0)
  {
    hide Sane, Plain, EscapeAt;
    AsciiLetters(al);
    WordAt(al, text, i, word);
    ControlWordLaw(al, text, i);
  }

  /** One written character is read back, and the scan goes on just after it. */
  lemma SpelledIsRead(al: Alphabet, text: string, i: nat, s: Spelling, c: char)
    requires Sane(al) && Spells(s, c) && At(text, i, Spelled(s, c))
    ensures Plain(al, text, i, 0) == [c] + Plain(al, text, i + |Spelled(s, c)|, 0)
  {
    hide Sane, Plain;
    match s
    case AsIs =>
      AtChars(text, i, [c]);
      PlainRun(al, text, i, i + 1);
    case Quoted => QuotedIsRead(al, text, i, c);
    case Hex => HexIsRead(al, text, i, c);
    case Par => WordIsRead(al, text, i, "par");
    case Line => WordIsRead(al, text, i, "line");
    case Tab => WordIsRead(al, text, i, "tab");
  }

  lemma QuotedIsRead(al: Alphabet, text: string, i: nat, c: char)
    requires Sane(al) && c in {'\\', '{', '}'} && At(text, i, ['\\', c])
    ensures Plain(al, text, i, 0) == [c] + Plain(al, text, i + 2, 0)
  {
    hide Plain, Sane;
    AtChars(text, i, ['\\', c]);
    SymbolAt(al, text, i);
    assert text[i + 1] == c;
    assert EscapeAt(al, text, i) == Escape(i + 2, [c]);
  }

  lemma HexIsRead(al: Alphabet, text: string, i: nat, c: char)
    requires Sane(al) && c as int < 256 && At(text, i, Spelled(Hex, c))
    ensures Plain(al, text, i, 0) == [c] + Plain(al, text, i + 4, 0)
  {
    hide Plain, Sane;
    AtChars(text, i, Spelled(Hex, c));
    assert text[i + 1] == '\'' && text[i + 2] == HexDigit(c as int / 16) && text[i + 3] == HexDigit(c as int % 16);
    SymbolAt(al, text, i);
    HexReads(al, c);
    assert EscapeAt(al, text, i) == Escape(i + 4, [c]);
  }

  /** A backslash before markup starts no control word. */
  lemma SymbolAt(al: Alphabet, text: string, i: nat)
    requires Sane(al) && i + 1 < |text| && text[i] == '\\' && Markup(text[i + 1])
    ensures Word(al, text, i) == "" && Plain(al, text, i, 0) == EscapeAt(al, text, i).out + Plain(al, text, EscapeAt(al, text, i).next, 0)
  {
    hide EscapeAt;
    assert RunEnd(text, i + 1, al.letter) == i + 1;
  }

  // ---- where escapes end, and what the other ones stand for ----

  /** The characters from i up to j, and not the one at j, are of the class. */
  ghost predicate IsSpan(text: string, i: nat, j: nat, of: char -> bool) {
    i <= j <= |text| && (forall k | i <= k < j :: of(text[k])) && (j < |text| ==> !of(text[j]))
  }

  /** Position j is past the character c that may stand at i. */
  predicate IsPast(text: string, i: nat, j: nat, c: char) {
    if i < |text| && text[i] == c then j == i + 1 else j == i
  }

  /** A control word is its letters, a sign, digits and one space; sign, digits and space may be missing. */
  lemma WordSpans(al: Alphabet, text: string, i: nat) returns (a: nat, b: nat, c: nat)
    requires i < |text|
    ensures IsSpan(text, i + 1, a, al.letter) && Word(al, text, i) == text[i + 1..a]
    ensures IsPast(text, a, b, '-') && IsSpan(text, b, c, al.digit) && IsPast(text, c, WordEnd(al, text, i), ' ')
  {
    a := RunEnd(text, i + 1, al.letter);
    b := Past(text, a, '-');
    c := RunEnd(text, b, al.digit);
    RunStops(text, i + 1, al.letter);
    RunStops(text, b, al.digit);
  }

  /** A Unicode escape is a sign, digits, one space and one replacement in hexadecimal, each of which may be missing;
      it stands for a question mark. */
  lemma UnicodeLaw(al: Alphabet, text: string, i: nat) returns (a: nat, b: nat, c: nat, j: nat)
    requires Sane(al) && i + 2 < |text| && text[i] == '\\' && Word(al, text, i) == "u"
    ensures IsPast(text, i + 2, a, '-') && IsSpan(text, a, b, al.digit) && IsPast(text, b, c, ' ')
    ensures c <= |text| && j == if c + 3 < |text| && text[c] == '\\' && text[c + 1] == '\'' then c + 4 else c
    ensures Plain(al, text, i, 0) == "?" + Plain(al, text, j, 0)
  {
    hide Sane, RunEnd;
    assert text[i + 1] == Word(al, text, i)[0];
    a := Past(text, i + 2, '-');
    b := RunEnd(text, a, al.digit);
    c := Past(text, b, ' ');
    j := UnicodeEnd(al, text, i + 1);
    RunStops(text, a, al.digit);
    assert EscapeAt(al, text, i) == Escape(j, "?");
  }

  /** Two bytes in hexadecimal stand for their character, or for nothing if they are no number. */
  lemma HexLaw(al: Alphabet, text: string, i: nat)
    requires Sane(al) && i + 3 < |text| && text[i] == '\\' && text[i + 1] == '\''
    ensures var code := al.hex(text[i + 2], text[i + 3]);
            Plain(al, text, i, 0) == (if code.Some? then [code.value] else "") + Plain(al, text, i + 4, 0)
  {
    hide Sane;
    assert Markup(text[i + 1]);
    SymbolAt(al, text, i);
  }

  /** The control symbols; a backslash at the very end stands for itself. */
  lemma SymbolLaw(al: Alphabet, text: string, i: nat)
    requires Sane(al) && i < |text| && text[i] == '\\'
    ensures i + 1 == |text| ==> Plain(al, text, i, 0) == "\\"
    ensures i + 1 < |text| && text[i + 1] in {'\\', '{', '}'} ==> Plain(al, text, i, 0) == [text[i + 1]] + Plain(al, text, i + 2, 0)
    ensures i + 1 < |text| && text[i + 1] == '~' ==> Plain(al, text, i, 0) == "\U{00A0}" + Plain(al, text, i + 2, 0)
    ensures i + 1 < |text| && text[i + 1] == '_' ==> Plain(al, text, i, 0) == "\U{2011}" + Plain(al, text, i + 2, 0)
    ensures i + 2 < |text| && text[i + 1] == '\r' && text[i + 2] == '\n' ==> Plain(al, text, i, 0) == Plain(al, text, i + 3, 0)
    ensures i + 1 < |text| && text[i + 1] in {'\n', '\r'} && !(text[i + 1] == '\r' && i + 2 < |text| && text[i + 2] == '\n')
            ==> Plain(al, text, i, 0) == Plain(al, text, i + 2, 0)
  {
    hide Sane, WordEnd, StartsWord;
    if i + 1 == |text| {
      assert Word(al, text, i) == "" && EscapeAt(al, text, i) == Escape(i + 1, "\\");
      assert Plain(al, text, |text|, 0) == "";
    } else if Markup(text[i + 1]) {
      SymbolAt(al, text, i);
    }
  }

  lemma HexReads(al: Alphabet, c: char)
    requires Sane(al) && c as int < 256
    ensures al.hex(HexDigit(c as int / 16), HexDigit(c as int % 16)) == Some(c)
  {
    var a, b := c as int / 16, c as int % 16;
    assert al.hex(HexDigit(a), HexDigit(b)) == Some((16 * a + b) as char);
  }

  lemma {:induction false} WrittenIsRead(al: Alphabet, text: string, i: nat, ss: seq<Spelling>, chars: string)
    requires Sane(al) && AllSpelled(ss, chars) && At(text, i, Written(ss, chars))
    ensures Plain(al, text, i, 0) == chars + Plain(al, text, i + |Written(ss, chars)|, 0)
    decreases |chars|
  {
    hide Plain, Spelled, Sane;
    if chars == "" {
      assert |Written(ss, chars)| == 0;
    } else {
      var head := Spelled(ss[0], chars[0]);
      AtConcat(text, i, head, Written(ss[1..], chars[1..]));
      SpelledIsRead(al, text, i, ss[0], chars[0]);
      WrittenIsRead(al, text, i + |head|, ss[1..], chars[1..]);
      assert chars == [chars[0]] + chars[1..];
    }
  }

  function Document(ss: seq<Spelling>, chars: string): string
    requires AllSpelled(ss, chars)
  {
    "{" + ("\\rtf1 " + (Written(ss, chars) + "}"))
  }

  /** However a writer spells each character of a text, the scanner gives the text back. */
  lemma RoundTrip(al: Alphabet, ss: seq<Spelling>, chars: string)
    requires Sane(al) && AllSpelled(ss, chars)
    ensures Plain(al, Document(ss, chars), 0, 0) == chars
  {
    hide Sane, Written, EscapeAt, WordEnd, Word, Plain;
    var t, w := Document(ss, chars), Written(ss, chars);
    assert At(t, 0, t);
    AtConcat(t, 0, "{", "\\rtf1 " + (w + "}"));
    AtConcat(t, 1, "\\rtf1 ", w + "}");
    AtConcat(t, 7, w, "}");
    AtChars(t, 1, "\\rtf1 ");
    HeaderWord(al, t);
    ControlWordLaw(al, t, 1);
    assert !Ignorable(t, 0);
    BraceIsSilent(al, t, 0);
    assert Plain(al, t, 0, 0) == Plain(al, t, 1, 0) == Plain(al, t, 7, 0);
    WrittenIsRead(al, t, 7, ss, chars);
    assert t[7 + |w|] == '}' by { AtChars(t, 7 + |w|, "}"); }
    BraceIsSilent(al, t, 7 + |w|);
  }

  /** Outside a skipped group a brace adds nothing, and nothing comes from the end of the text. */
  lemma BraceIsSilent(al: Alphabet, t: string, i: nat)
    requires i < |t| && t[i] in {'{', '}'} && !Ignorable(t, i)
    ensures Plain(al, t, i, 0) == Plain(al, t, i + 1, 0) && Plain(al, t, |t|, 0) == ""
  {
  }

  lemma HeaderWord(al: Alphabet, t: string)
    requires Sane(al) && |t| >= 7
    requires t[1] == '\\' && t[2] == 'r' && t[3] == 't' && t[4] == 'f' && t[5] == '1' && t[6] == ' '
    ensures Word(al, t, 1) == "rtf" && WordEnd(al, t, 1) == 7
  {
    assert al.digit('1') && !al.letter('1');
    assert !al.digit(' ') by { Space(al); }
    AsciiLetters(al);
    RunIs(t, 2, 5, al.letter);
    RunIs(t, 5, 6, al.digit);
    assert t[2..5] == "rtf";
  }
}
