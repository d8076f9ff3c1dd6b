/**
 `cleanInput` of main.go: `strings.Fields(strings.ToLower(text))`.

 Restricted to ASCII: upper case means 'A'..'Z', and white space is the set
 `strings.Fields` tests for ASCII input (tab, newline, vertical tab, form
 feed, carriage return and space). Every other character is a word character
 that lowercasing leaves alone.
 */
module Input {

  predicate IsSpace(c: char)
  {
    c == ' ' || c == '\t' || c == '\n' || c == '\U{B}' || c == '\U{C}' || c == '\r'
  }

  predicate IsUpper(c: char)
  {
    'A' <= c <= 'Z'
  }

  /** A word as `strings.Fields` yields it: non-empty, free of white space. */
  predicate IsWord(w: string)
  {
    w != [] && forall i :: 0 <= i < |w| ==> !IsSpace(w[i])
  }

  /** A run of white space, possibly empty. */
  predicate IsBlank(s: string)
  {
    forall i :: 0 <= i < |s| ==> IsSpace(s[i])
  }

  predicate NoUpper(s: string)
  {
    forall i :: 0 <= i < |s| ==> !IsUpper(s[i])
  }

  function LowerChar(c: char): char
  {
    if IsUpper(c) then (c as int + 32) as char else c
  }

  /** `strings.ToLower` on ASCII: only capitals change, each to the same
      letter in lower case; the result has no capitals, and white space stays
      exactly where it was. */
  function ToLower(s: string): (r: string)
    ensures |r| == |s| && NoUpper(r)
    ensures forall i :: 0 <= i < |s| ==> r[i] == s[i] || IsUpper(s[i])
    ensures forall i :: 0 <= i < |s| ==> (IsSpace(r[i]) <==> IsSpace(s[i]))
    ensures forall i :: 0 <= i < |s| && IsUpper(s[i]) ==> 'a' <= r[i] <= 'z' && r[i] as int - 'a' as int == s[i] as int - 'A' as int
  {
    seq(|s|, i requires 0 <= i < |s| => LowerChar(s[i]))
  }

  /** The longest prefix of `s` without white space. */
  function Word(s: string): (w: string)
    ensures |w| <= |s| && w == s[..|w|]
    ensures forall i :: 0 <= i < |w| ==> !IsSpace(w[i])
    ensures |w| < |s| ==> IsSpace(s[|w|])
    ensures s != [] && !IsSpace(s[0]) ==> w != []
  {
    if s == [] || IsSpace(s[0]) then [] else [s[0]] + Word(s[1..])
  }

  /** `strings.Fields`: the maximal white-space-free runs of `s`, in order. */
  function Fields(s: string): (ws: seq<string>)
    ensures forall i :: 0 <= i < |ws| ==> IsWord(ws[i])
    decreases |s|
  {
    if s == [] then []
    else if IsSpace(s[0]) then Fields(s[1..])
    else var w := Word(s); [w] + Fields(s[|w|..])
  }

  /** `cleanInput`: the lower-cased words of a line. */
  function CleanInput(text: string): (words: seq<string>)
    ensures forall i :: 0 <= i < |words| ==> IsWord(words[i]) && NoUpper(words[i])
  {
    FieldsNoUpper(ToLower(text));
    Fields(ToLower(text))
  }

  lemma {:induction false} FieldsNoUpper(s: string)
    requires NoUpper(s)
    ensures forall i :: 0 <= i < |Fields(s)| ==> NoUpper(Fields(s)[i])
    decreases |s|
  {
    if s == [] {
    } else if IsSpace(s[0]) {
      FieldsNoUpper(s[1..]);
    } else {
      var w := Word(s);
      FieldsNoUpper(s[|w|..]);
    }
  }

  /** The line `seps[0] + ws[0] + seps[1] + ... + ws[n-1] + seps[n]`. */
  function Interleave(seps: seq<string>, ws: seq<string>): string
    requires |seps| == |ws| + 1
  {
    if ws == [] then seps[0] else seps[0] + ws[0] + Interleave(seps[1..], ws[1..])
  }

  /** `s` spells out the words `ws` separated by runs of white space: one
      run before the first word and one after the last, both possibly empty,
      and a non-empty run between any two words. */
  ghost predicate Spells(s: string, seps: seq<string>, ws: seq<string>)
  {
    && |seps| == |ws| + 1
    && (forall i :: 0 <= i < |ws| ==> IsWord(ws[i]))
    && (forall i :: 0 <= i < |seps| ==> IsBlank(seps[i]))
    && (forall i :: 0 < i < |ws| ==> seps[i] != [])
    && s == Interleave(seps, ws)
  }

  /** Leading white space adds nothing. */
  lemma {:induction false} FieldsSkipsBlank(b: string, s: string)
    requires IsBlank(b)
    ensures Fields(b + s) == Fields(s)
    decreases |b|
  {
    if b != [] {
      assert (b + s)[0] == b[0];
      assert (b + s)[1..] == b[1..] + s;
      FieldsSkipsBlank(b[1..], s);
    } else {
      assert b + s == s;
    }
  }

  /** A word followed by white space (or by nothing) is the next field. */
  lemma WordThenRest(w: string, t: string)
    requires IsWord(w)
    requires t == [] || IsSpace(t[0])
    ensures Fields(w + t) == [w] + Fields(t)
  {
    WordOfWordThenRest(w, t);
    assert (w + t)[|w|..] == t;
  }

  lemma {:induction false} WordOfWordThenRest(w: string, t: string)
    requires forall i :: 0 <= i < |w| ==> !IsSpace(w[i])
    requires t == [] || IsSpace(t[0])
    ensures Word(w + t) == w
    decreases |w|
  {
    if w != [] {
      assert (w + t)[1..] == w[1..] + t;
      WordOfWordThenRest(w[1..], t);
    }
  }

  /** Words separated by white space come back from `Fields` exactly, in
      order: leading, trailing and repeated white space produce no extra
      words. */
  lemma {:induction false} FieldsOfSpelling(s: string, seps: seq<string>, ws: seq<string>)
    requires Spells(s, seps, ws)
    ensures Fields(s) == ws
    decreases |ws|
  {
    if ws == [] {
      FieldsSkipsBlank(seps[0], []);
      assert seps[0] + [] == seps[0];
    } else {
      var rest := Interleave(seps[1..], ws[1..]);
      assert Spells(rest, seps[1..], ws[1..]) by {
        forall i | 0 < i < |ws[1..]| ensures seps[1..][i] != [] {
          assert seps[1..][i] == seps[i + 1];
        }
      }
      FieldsOfSpelling(rest, seps[1..], ws[1..]);
      if |ws| > 1 {
        assert rest == seps[1] + (ws[1] + Interleave(seps[2..], ws[2..]));
        assert seps[1] != [] && IsSpace(rest[0]);
      } else {
        assert rest == seps[1];
      }
      WordThenRest(ws[0], rest);
      FieldsSkipsBlank(seps[0], ws[0] + rest);
      assert s == seps[0] + (ws[0] + rest);
    }
  }

  /** The white-space runs around the fields of `s`. */
  function Separators(s: string): (seps: seq<string>)
    ensures |seps| == |Fields(s)| + 1
    decreases |s|
  {
    if s == [] then [[]]
    else if IsSpace(s[0]) then
      var r := Separators(s[1..]);
      [[s[0]] + r[0]] + r[1..]
    else
      [[]] + Separators(s[|Word(s)|..])
  }

  /** White space put in front of a spelling joins its first run. */
  lemma InterleavePrepend(x: string, seps: seq<string>, ws: seq<string>)
    requires |seps| == |ws| + 1
    ensures Interleave([x + seps[0]] + seps[1..], ws) == x + Interleave(seps, ws)
  {
    var seps' := [x + seps[0]] + seps[1..];
    assert seps'[1..] == seps[1..];
  }

  /** Every line spells its fields, with `Separators` as the white space. */
  lemma {:induction false} SpellsFields(s: string)
    ensures Spells(s, Separators(s), Fields(s))
    ensures s != [] && IsSpace(s[0]) ==> Separators(s)[0] != []
    decreases |s|
  {
    if s == [] {
    } else if IsSpace(s[0]) {
      SpellsFields(s[1..]);
      SpellsFieldsSpace(s);
    } else {
      var w := Word(s);
      var t := s[|w|..];
      SpellsFields(t);
      assert s == w + t;
      SpellsConsWord(w, t, Separators(t), Fields(t));
    }
  }

  /** The step of SpellsFields for a line that starts with white space. */
  lemma SpellsFieldsSpace(s: string)
    requires s != [] && IsSpace(s[0])
    requires Spells(s[1..], Separators(s[1..]), Fields(s[1..]))
    ensures Spells(s, Separators(s), Fields(s))
    ensures Separators(s)[0] != []
  {
    var seps, ws, r := Separators(s), Fields(s), Separators(s[1..]);
    assert ws == Fields(s[1..]);
    assert seps == [[s[0]] + r[0]] + r[1..];
    InterleavePrepend([s[0]], r, ws);
    assert s == [s[0]] + s[1..];
    forall i | 0 <= i < |seps| ensures IsBlank(seps[i]) {
      if i > 0 { assert seps[i] == r[i]; }
    }
    forall i | 0 < i < |ws| ensures seps[i] != [] {
      assert seps[i] == r[i];
    }
  }

  /** A word in front of a spelling that starts with white space (or is
      empty) adds one word and an empty leading run. */
  lemma SpellsConsWord(w: string, t: string, seps: seq<string>, ws: seq<string>)
    requires IsWord(w) && Spells(t, seps, ws)
    requires t == [] || IsSpace(t[0])
    requires t != [] ==> seps[0] != []
    ensures Spells(w + t, [[]] + seps, [w] + ws)
  {
    var seps', ws' := [[]] + seps, [w] + ws;
    assert seps'[1..] == seps && ws'[1..] == ws;
    assert Interleave(seps', ws') == [] + w + t;
    assert w + t == [] + w + t;
    forall i | 0 < i < |ws'| ensures seps'[i] != [] {
      assert seps'[i] == seps[i - 1];
      if i == 1 {
        assert t == seps[0] + ws[0] + Interleave(seps[1..], ws[1..]);
        assert ws[0] != [];
      }
    }
    forall i | 0 <= i < |seps'| ensures IsBlank(seps'[i]) {
      if i > 0 { assert seps'[i] == seps[i - 1]; }
    }
    forall i | 0 <= i < |ws'| ensures IsWord(ws'[i]) {
      if i > 0 { assert ws'[i] == ws[i - 1]; }
    }
  }

  /** `Fields(s) == ws` exactly when `s` spells the words `ws` with some
      white space around and between them. */
  lemma FieldsCharacterized(s: string, ws: seq<string>)
    ensures Fields(s) == ws <==> exists seps :: Spells(s, seps, ws)
  {
    SpellsFields(s);
    if exists seps :: Spells(s, seps, ws) {
      var seps :| Spells(s, seps, ws);
      FieldsOfSpelling(s, seps, ws);
    }
  }

  /** A line yields no words exactly when it is empty or all white space. */
  lemma CleanInputEmptyIffBlank(text: string)
    ensures CleanInput(text) == [] <==> IsBlank(text)
  {
    var lower := ToLower(text);
    SpellsFields(lower);
    if IsBlank(text) {
      assert IsBlank(lower);
      assert Spells(lower, [lower], []);
      FieldsOfSpelling(lower, [lower], []);
    }
  }

  /** Lower-casing leaves a line without capitals as it is. */
  lemma ToLowerKeepsLowerCase(s: string)
    requires NoUpper(s)
    ensures ToLower(s) == s
  {
  }

  lemma ToLowerBatatinha()
    ensures ToLower("baTatiNha Quando Nasce") == "batatinha quando nasce"
  {
  }

  lemma ToLowerHelloWorld()
    ensures ToLower("hello   World 2 ") == "hello   world 2 "
  {
  }

  /** The words of a line are those its lower-cased form spells. */
  lemma CleanInputOfSpelling(text: string, lower: string, seps: seq<string>, ws: seq<string>)
    requires ToLower(text) == lower && Spells(lower, seps, ws)
    ensures CleanInput(text) == ws
  {
    FieldsOfSpelling(lower, seps, ws);
  }

  lemma SpellsHelloWorld()
    ensures Spells("  hello world  ", ["  ", " ", "  "], ["hello", "world"])
  {
    assert "  hello world  " == Interleave(["  ", " ", "  "], ["hello", "world"]);
  }

  lemma SpellsBatatinha()
    ensures Spells("batatinha quando nasce", ["", " ", " ", ""], ["batatinha", "quando", "nasce"])
  {
    assert "batatinha quando nasce" == Interleave(["", " ", " ", ""], ["batatinha", "quando", "nasce"]);
  }

  lemma SpellsHelloWorld2()
    ensures Spells("hello   world 2 ", ["", "   ", " ", " "], ["hello", "world", "2"])
  {
    assert "hello   world 2 " == Interleave(["", "   ", " ", " "], ["hello", "world", "2"]);
  }

  /** TestCleanInput: surrounding spaces are dropped. */
  lemma CleanInputTrimsSpaces()
    ensures CleanInput("  hello world  ") == ["hello", "world"]
  {
    ToLowerKeepsLowerCase("  hello world  ");
    SpellsHelloWorld();
    CleanInputOfSpelling("  hello world  ", "  hello world  ", ["  ", " ", "  "], ["hello", "world"]);
  }

  /** TestCleanInput: words are lower-cased. */
  lemma CleanInputLowers()
    ensures CleanInput("baTatiNha Quando Nasce") == ["batatinha", "quando", "nasce"]
  {
    ToLowerBatatinha();
    SpellsBatatinha();
    CleanInputOfSpelling("baTatiNha Quando Nasce", "batatinha quando nasce", ["", " ", " ", ""], ["batatinha", "quando", "nasce"]);
  }

  /** TestCleanInput: repeated spaces separate like one. */
  lemma CleanInputCollapsesSpaces()
    ensures CleanInput("hello   World 2 ") == ["hello", "world", "2"]
  {
    ToLowerHelloWorld();
    SpellsHelloWorld2();
    CleanInputOfSpelling("hello   World 2 ", "hello   world 2 ", ["", "   ", " ", " "], ["hello", "world", "2"]);
  }
}
