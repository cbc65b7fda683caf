/**
 * scripts/verify-gemini-key.mjs: reads `GEMINI_API_KEY` out of
 * `.env.local` by hand, checks its presence and its format and only then
 * tries the key against Gemini.  The file's contents are an input; the
 * Gemini call is not part of this model.
 */
module VerifyGeminiKey {
  import opened Text

  const Prefix: string := "GEMINI_API_KEY="

  /** `line.split('=')[1]`, which is `undefined` for a line without `=`. */
  function SecondPiece(line: string): Option<string>
  {
    var pieces := Split(line, '=');
    if |pieces| >= 2 then Some(pieces[1]) else None
  }

  /** The test inside the loop. */
  predicate Selects(line: string)
  {
    StartsWith(line, Prefix) && !StartsWith(line, "#")
  }

  /** The `#` test adds nothing: a line starting with `GEMINI_API_KEY=` does not start with `#`. */
  lemma HashGuardRedundant(line: string)
    ensures Selects(line) <==> StartsWith(line, Prefix)
  {
    if StartsWith(line, Prefix) {
      assert line[0] == Prefix[0] == 'G';
    }
  }

  /**
   * What the loop leaves in `GEMINI_API_KEY`: the second `=`-piece of the
   * first selected line, `None` (`null`) when no line is selected.
   */
  function KeyOf(lines: seq<string>): (key: Option<string>)
    ensures key.None? ==> forall i :: 0 <= i < |lines| ==> !Selects(lines[i])
    ensures key.Some? ==>
      exists i :: (0 <= i < |lines| && Selects(lines[i]) && Some(key.value) == SecondPiece(lines[i])
                   && forall j :: 0 <= j < i ==> !Selects(lines[j]))
  {
    if lines == [] then None
    else if Selects(lines[0]) then
      assert lines[0] == Prefix + lines[0][15..];
      SelectedLineHasKey(lines[0][15..]);
      SecondPiece(lines[0])
    else
      var k := KeyOf(lines[1..]);
      assert forall i :: 1 <= i < |lines| ==> lines[i] == lines[1..][i - 1];
      if k.Some? then
        ghost var i :| 0 <= i < |lines[1..]| && Selects(lines[1..][i]) && Some(k.value) == SecondPiece(lines[1..][i])
          && forall j :: 0 <= j < i ==> !Selects(lines[1..][j]);
        assert Selects(lines[i + 1]) && forall j :: 0 <= j < i + 1 ==> !Selects(lines[j]);
        k
      else k
  }

  /** The second piece of a selected line is always there: it begins right after the prefix's `=`. */
  lemma SelectedLineHasKey(rest: string)
    ensures SecondPiece(Prefix + rest) == Some(if '=' in rest then rest[..FirstIndexOfChar(rest, '=')] else rest)
  {
    var line := Prefix + rest;
    assert '=' !in Prefix[..14];
    FirstIndexOfCharAt(line, '=', 14);
    assert line[15..] == rest;
    SplitFirst(rest, '=');
  }

  /** The `for` loop over `envContent.split('\n')`, with its `break`. */
  method FindKey(content: string) returns (key: Option<string>)
    ensures key == KeyOf(Split(content, '\n'))
  {
    var lines := Split(content, '\n');
    key := None;
    var i := 0;
    while i < |lines|
      invariant 0 <= i <= |lines|
      invariant key == None
      invariant KeyOf(lines) == KeyOf(lines[i..])
    {
      assert lines[i..][1..] == lines[i + 1..];
      if StartsWith(lines[i], Prefix) && !StartsWith(lines[i], "#") {
        key := SecondPiece(lines[i]);
        return;
      }
      i := i + 1;
    }
  }

  predicate IsKeyChar(c: char) { IsAsciiAlnum(c) || c == '_' || c == '-' }

  /** `/^AIza[A-Za-z0-9_-]{35}$/`. */
  predicate WellFormed(key: string)
  {
    |key| == 39 && key[..4] == "AIza" && forall i :: 4 <= i < 39 ==> IsKeyChar(key[i])
  }

  /** JavaScript's `substring(start, end)`: both ends clamped to the string, and swapped if reversed. */
  function Substring(s: string, start: int, end: int): (r: string)
    ensures |r| <= |s|
  {
    var a := if start < 0 then 0 else if start > |s| then |s| else start;
    var b := if end < 0 then 0 else if end > |s| then |s| else end;
    if a <= b then s[a..b] else s[b..a]
  }

  /** `substring(-4)`: a negative start is clamped to 0, so the printed "tail" is the whole key. */
  lemma NegativeStartIsWhole(s: string)
    ensures Substring(s, -4, |s|) == s
  {
  }

  /** How the script ends before or at the network check. */
  datatype Outcome =
    | Missing
    | BadFormat(shown: string, length: nat)
    | TryGemini(key: string, printed: string)

  /** The checks after the loop. */
  function Check(key: Option<string>): Outcome
  {
    if key.None? || key.value == "" then Missing
    else if !WellFormed(key.value) then BadFormat(Substring(key.value, 0, 10), Utf16Length(key.value))
    else TryGemini(key.value, "   Clave: " + Substring(key.value, 0, 10) + "..." + Substring(key.value, -4, |key.value|))
  }

  /**
   * Gemini is only ever tried with a well-formed key: without a selected
   * line, or with an empty one, the script stops first, and every other
   * malformed key stops it at the format check.
   */
  lemma NetworkOnlyWithWellFormedKey(content: string)
    ensures var o := Check(KeyOf(Split(content, '\n')));
      && (o.TryGemini? <==> KeyOf(Split(content, '\n')).Some? && WellFormed(KeyOf(Split(content, '\n')).value))
      && ((forall i :: 0 <= i < |Split(content, '\n')| ==> !StartsWith(Split(content, '\n')[i], Prefix)) ==> o.Missing?)
  {
    var lines := Split(content, '\n');
    forall i | 0 <= i < |lines| && !StartsWith(lines[i], Prefix) ensures !Selects(lines[i]) { }
  }

  /** A well-formed key is printed as its first ten characters, `...` and then the whole key again. */
  lemma PrintedKey(key: string)
    requires WellFormed(key)
    ensures Check(Some(key)) == TryGemini(key, "   Clave: " + key[..10] + "..." + key)
  {
    NegativeStartIsWhole(key);
  }

  /** The first line of a file that starts with the key line, CRLF-terminated, keeps its `\r`. */
  lemma CrlfFirstLine(key: string, rest: string)
    requires '\n' !in key
    ensures Split(Prefix + key + "\r\n" + rest, '\n')[0] == Prefix + (key + "\r")
  {
    var content := Prefix + key + "\r\n" + rest;
    var line := Prefix + (key + "\r");
    assert content == line + "\n" + rest;
    assert '\n' !in line by {
      assert forall c :: c in line ==> c in Prefix || c in key || c == '\r';
    }
    assert content[|line|] == '\n' && content[..|line|] == line;
    FirstIndexOfCharAt(content, '\n', |line|);
  }

  /** Splitting only on `\n` leaves the `\r` of a CRLF file on the key, which then fails the format check. */
  lemma CrlfKeyRejected(key: string, rest: string)
    requires '=' !in key && '\n' !in key
    ensures var o := Check(KeyOf(Split(Prefix + key + "\r\n" + rest, '\n')));
      o.Missing? || o.BadFormat?
  {
    var k := key + "\r";
    CrlfFirstLine(key, rest);
    var lines := Split(Prefix + key + "\r\n" + rest, '\n');
    assert Selects(lines[0]) by {
      assert lines[0][..15] == Prefix;
      HashGuardRedundant(lines[0]);
    }
    assert '=' !in k;
    SelectedLineHasKey(k);
    assert KeyOf(lines) == Some(k);
    if |k| == 39 {
      assert !IsKeyChar(k[38]);
    }
  }

  /** The format: `AIza` and thirty-five characters of `[A-Za-z0-9_-]`. */
  lemma FormatExample()
    ensures WellFormed("AIza" + seq(35, _ => 'x'))
    ensures !WellFormed("AIza" + seq(34, _ => 'x'))
    ensures !WellFormed("AIza" + seq(34, _ => 'x') + "=")
  {
    var k := "AIza" + seq(35, _ => 'x');
    assert k[..4] == "AIza";
    assert forall i :: 4 <= i < 39 ==> k[i] == 'x';
    var b := "AIza" + seq(34, _ => 'x') + "=";
    assert b[38] == '=';
  }
}
