/**
 * scripts/apply_v32_fix_final.js: retargets two step transitions of the chat
 * route from `PASO_2_ESPERANDO_CATEGORIA` to `PASO_2_ESPERANDO_SERVICIO`,
 * rewrites two prompts, then splices the handler fragment in front of the
 * line break that precedes the category-block comment, unless a
 * `PASO_2_ESPERANDO_SERVICIO` step test is already present.  The file is
 * written in every case.
 *
 * The fragment file is read only when the insertion happens; its text is
 * the parameter `frag`, and the lemmas show the result does not depend on
 * it otherwise.
 */
module ApplyV32Fix {
  import opened Text
  import opened Pattern

  /** A session-state literal `step: 'PASO_2_ESPERANDO_<step>', <fields>`. */
  function Transition(step: string, fields: string): string
  {
    StepHead + step + "', " + fields
  }

  const StepHead: string := "step: 'PASO_2_ESPERANDO_"
  const FieldsAfterGlobals: string := "clienteId, clienteNombre, subdivision, respuestasGlobales: respuestas"
  const FieldsNoGlobals: string := "clienteId: 0, clienteNombre: '', subdivision: null, respuestasGlobales: {}"

  const AfterGlobalsOld: string := "const texto = `Gracias. Ahora selecciona la categoría de servicio: ${cats.join(', ')}.`"
  const AfterGlobalsNew: string := "const texto = 'Entendido. Ahora, ¿qué servicio necesitas cotizar?'"

  /** `/const texto = `¡Claro! … de servicio: .*?`;/`. */
  const GreetingStart: string :=
    "const texto = `¡Claro! Empecemos tu solicitud. No hay preguntas generales, así que inicia seleccionando la categoría de servicio: "
  const Greeting: Pat := [Lit(GreetingStart), LazyTo(AnyInLine(), "`;")]
  const GreetingNew: string :=
    "const texto = '¡Claro! Empecemos tu solicitud. Entendido. Ahora, ¿qué servicio necesitas cotizar?';"

  const Guard: string := "estado.step === 'PASO_2_ESPERANDO_SERVICIO'"

  /** `/\n\s*\/\/\s*---\s*PASO 2:\s*Selección data-driven del servicio\s*---/`. */
  const MarkerLine: Pat := [
    Lit("\n"), Star(Space()), Lit("//"), Star(Space()), Lit("---"), Star(Space()),
    Lit("PASO 2:"), Star(Space()), Lit("Selección data-driven del servicio"), Star(Space()), Lit("---")]

  /** Greedy runs of white space give nothing back that the next literal could use. */
  lemma MarkerLineGreedySafe()
    ensures StartsWithLiteral(MarkerLine) && StarredClassesStop(MarkerLine)
  {
    forall k | 0 <= k < |MarkerLine| - 1 && (MarkerLine[k].Star? || MarkerLine[k].Plus?)
      ensures MarkerLine[k + 1].Lit? && MarkerLine[k + 1].t != []
      ensures !MarkerLine[k].p(MarkerLine[k + 1].t[0])
    {
      assert !Space()('/') && !Space()('-') && !Space()('P') && !Space()('S');
      if k == 1 {
        assert MarkerLine[2].t[0] == '/';
      } else if k == 3 {
        assert MarkerLine[4].t[0] == '-';
      } else if k == 5 {
        assert MarkerLine[6].t[0] == 'P';
      } else if k == 7 {
        assert MarkerLine[8].t == "Selección data-driven del servicio";
        assert MarkerLine[8].t[0] == 'S';
      } else {
        assert MarkerLine[10].t[0] == '-';
      }
    }
  }

  /** The text after the four edits (lines 5-8). */
  function Edited(src: string): string
  {
    var s1 := ReplaceFirst(src, Transition("CATEGORIA", FieldsAfterGlobals), Transition("SERVICIO", FieldsAfterGlobals));
    var s2 := ReplaceFirst(s1, AfterGlobalsOld, AfterGlobalsNew);
    var s3 := ReplaceFirst(s2, Transition("CATEGORIA", FieldsNoGlobals), Transition("SERVICIO", FieldsNoGlobals));
    ReplaceFirstMatch(Greeting, s3, GreetingNew)
  }

  /** Where the fragment goes: the first match of the marker pattern, if the guard is absent. */
  function InsertAt(s: string): Option<nat>
  {
    if Contains(s, Guard) then None else FirstMatch(MarkerLine, s, 0)
  }

  /** `s.slice(0, idx) + "\n" + frag + s.slice(idx)` where an insertion happens. */
  function Insert(s: string, frag: string): string
  {
    match InsertAt(s)
    case None => s
    case Some(idx) => s[..idx] + "\n" + frag + s[idx..]
  }

  /** What the script writes, which it always does. */
  function V32Fix(src: string, frag: string): string
  {
    Insert(Edited(src), frag)
  }

  /** The script, step by step; `readFragment` is the fragment file's text. */
  method ApplyV32FixScript(src: string, readFragment: string) returns (written: string)
    ensures written == V32Fix(src, readFragment)
  {
    var s := src;
    s := ReplaceFirst(s, Transition("CATEGORIA", FieldsAfterGlobals), Transition("SERVICIO", FieldsAfterGlobals));
    s := ReplaceFirst(s, AfterGlobalsOld, AfterGlobalsNew);
    s := ReplaceFirst(s, Transition("CATEGORIA", FieldsNoGlobals), Transition("SERVICIO", FieldsNoGlobals));
    s := ReplaceFirstMatch(Greeting, s, GreetingNew);
    if !Contains(s, Guard) {
      var m := FirstMatch(MarkerLine, s, 0);
      if m.Some? {
        var idx := m.value;
        var frag := readFragment;
        s := s[..idx] + "\n" + frag + s[idx..];
      }
    }
    written := s;
  }

  /** Replacing `h + a + t` by `h + b + t` rewrites `a` alone, at the first occurrence. */
  lemma ReplaceMiddle(s: string, h: string, a: string, b: string, t: string)
    requires Contains(s, h + a + t)
    ensures var i := IndexOf(s, h + a + t).value;
      && i + |h| + |a| <= |s|
      && ReplaceFirst(s, h + a + t, h + b + t) == s[..i + |h|] + b + s[i + |h| + |a|..]
  {
    var i := IndexOf(s, h + a + t).value;
    ReplaceFirstShape(s, h + a + t, h + b + t);
    SpliceMiddle(s, i, h, a, b, t);
  }

  /** Splicing `h + b + t` over an occurrence of `h + a + t` only swaps the middle. */
  lemma SpliceMiddle(s: string, i: nat, h: string, a: string, b: string, t: string)
    requires OccursAt(s, h + a + t, i)
    ensures s[..i] + (h + b + t) + s[i + |h + a + t|..] == s[..i + |h|] + b + s[i + |h| + |a|..]
  {
    var n := |h + a + t|;
    var m := s[i..i + n];
    assert s[..i + |h|] == s[..i] + h by {
      assert m[..|h|] == h;
      assert s[..i + |h|] == s[..i] + s[i..i + |h|];
      assert s[i..i + |h|] == m[..|h|];
    }
    assert s[i + |h| + |a|..] == t + s[i + n..] by {
      assert m[|h| + |a|..] == t;
      assert s[i + |h| + |a|..] == s[i + |h| + |a|..i + n] + s[i + n..];
      assert s[i + |h| + |a|..i + n] == m[|h| + |a|..];
    }
  }

  /**
   * Retargeting a transition rewrites its first occurrence only, and only
   * the step name in it: the text before `CATEGORIA` and from the quote
   * after it on stays as it was.
   */
  lemma TransitionRetargeted(s: string, fields: string)
    requires Contains(s, Transition("CATEGORIA", fields))
    ensures var old_ := Transition("CATEGORIA", fields);
      var i := IndexOf(s, old_).value;
      var h := i + |StepHead|;
      && (forall j: nat :: j < i ==> !OccursAt(s, old_, j))
      && h + 9 <= |s|
      && ReplaceFirst(s, old_, Transition("SERVICIO", fields)) == s[..h] + "SERVICIO" + s[h + 9..]
  {
    var t := "', " + fields;
    assert Transition("CATEGORIA", fields) == StepHead + "CATEGORIA" + t;
    assert Transition("SERVICIO", fields) == StepHead + "SERVICIO" + t;
    ReplaceMiddle(s, StepHead, "CATEGORIA", "SERVICIO", t);
  }

  /** Each literal edit leaves a text without its target unchanged. */
  lemma LiteralEditsNeedTheirTarget(s: string)
    ensures !Contains(s, AfterGlobalsOld) ==> ReplaceFirst(s, AfterGlobalsOld, AfterGlobalsNew) == s
    ensures !Contains(s, Transition("CATEGORIA", FieldsAfterGlobals)) ==>
      ReplaceFirst(s, Transition("CATEGORIA", FieldsAfterGlobals), Transition("SERVICIO", FieldsAfterGlobals)) == s
  {
  }

  /**
   * The greeting edit replaces, from its fixed start, up to the first "`;"
   * after it, and the text in between holds no line terminator.
   */
  lemma GreetingSpan(s: string, i: nat)
    requires i <= |s| && MatchFrom(Greeting, s, i).Some?
    ensures var e := MatchFrom(Greeting, s, i).value;
      && OccursAt(s, GreetingStart, i)
      && i + |GreetingStart| + 2 <= e && OccursAt(s, "`;", e - 2)
      && forall k :: i + |GreetingStart| <= k < e - 2 ==> !IsLineTerminator(s[k]) && !OccursAt(s, "`;", k)
  {
    var j := i + |GreetingStart|;
    assert OccursAt(s, GreetingStart, i);
    assert Greeting[1..] == [LazyTo(AnyInLine(), "`;")];
    assert MatchFrom(Greeting, s, i) == MatchFrom(Greeting[1..], s, j);
    assert MatchFrom(Greeting[1..], s, j) == LazyEnd(AnyInLine(), "`;", s, j);
    LazyEndIsShortest(AnyInLine(), "`;", s, j);
  }

  /**
   * When the fragment goes in, it goes in as a line break and the fragment
   * in front of the first marker match, which starts at a line break; the
   * text on either side is kept.
   */
  lemma FragmentAtLineBreak(s: string, frag: string)
    requires InsertAt(s).Some?
    ensures var idx := InsertAt(s).value;
      && idx < |s| && s[idx] == '\n'
      && (forall k :: 0 <= k < idx ==> MatchFrom(MarkerLine, s, k).None?)
      && !Contains(s, Guard)
      && Insert(s, frag) == s[..idx] + "\n" + frag + s[idx..]
  {
    var idx := InsertAt(s).value;
    assert InsertAt(s) == FirstMatch(MarkerLine, s, 0);
    assert MarkerLine[0] == Lit(['\n']);
    FirstMatchAtChar(MarkerLine, s, '\n');
  }

  /** Without an insertion the fragment plays no part and the edited text is written. */
  lemma NoInsertionWritesEdited(src: string, frag: string, other: string)
    requires InsertAt(Edited(src)).None?
    ensures V32Fix(src, frag) == Edited(src) == V32Fix(src, other)
  {
  }

  /** The file is written even when none of the edits applied. */
  lemma UnchangedTextStillWritten(src: string, frag: string)
    requires Edited(src) == src && InsertAt(src).None?
    ensures V32Fix(src, frag) == src
  {
  }
}
