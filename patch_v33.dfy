/**
 * apply_v33_patch.js: rewrites two prompts of the chat route so that they
 * ask for a service instead of a category, then inserts the open service
 * search handler (modelled in ServiceMatcher) just before the
 * category-selection block, unless a `PASO_2_ESPERANDO_SERVICIO` handler is
 * already there.  The file is written only when something changed.
 *
 * The handler's lines after its title and condition are the parameter
 * `rest`; none of them contains `$`, so `replace` inserts them literally.
 */
module PatchV33 {
  import opened Text

  const NoGlobalsOld: string :=
    "No hay preguntas generales, así que inicia seleccionando la categoría de servicio: ${cats.join(', ')}."
  const NoGlobalsNew: string := "No hay preguntas generales, así que dime: ¿qué servicio necesitas cotizar?"
  const AfterGlobalsOld: string := "Gracias. Ahora selecciona la categoría de servicio: ${cats.join(', ')}."
  const AfterGlobalsNew: string := "Entendido. Ahora, ¿qué servicio necesitas cotizar?"

  const Marker: string := "    // --- PASO 2: Selección data-driven del servicio ---"
  const Guard: string := "if (estado.step === 'PASO_2_ESPERANDO_SERVICIO'"

  const HandlerTitle: string := "    // --- PASO 2: Búsqueda abierta por servicio (v3.2) ---"
  const HandlerCondition: string := "    " + Guard + " && mensajeUsuario.length > 0) {"

  /** The handler's lines joined by '\n': its title, its condition, then the rest. */
  function Handler(rest: string): string
  {
    HandlerTitle + "\n" + HandlerCondition + "\n" + rest
  }

  /** The handler's own condition is the guard text, so a second run finds it. */
  lemma HandlerHoldsGuard(rest: string)
    ensures Contains(Handler(rest), Guard)
  {
    var g := Guard;
    assert Contains(g, g) by { assert OccursAt(g, g, 0); }
    ContainsInRight("    ", g, g);
    ContainsInLeft("    " + g, " && mensajeUsuario.length > 0) {", g);
    ContainsInRight(HandlerTitle + "\n", HandlerCondition, g);
    ContainsInLeft(HandlerTitle + "\n" + HandlerCondition, "\n", g);
    ContainsInLeft(HandlerTitle + "\n" + HandlerCondition + "\n", rest, g);
  }

  /** Each prompt edit shortens the text it changes. */
  lemma EditsShorten()
    ensures |NoGlobalsNew| < |NoGlobalsOld| && |AfterGlobalsNew| < |AfterGlobalsOld|
  {
  }

  /** A first-occurrence replacement changes the text exactly when the target occurs. */
  lemma ReplaceFirstChanges(s: string, t: string, r: string)
    requires |r| < |t|
    ensures var out := ReplaceFirst(s, t, r);
      && (out != s <==> Contains(s, t))
      && (Contains(s, t) ==> |out| == |s| - |t| + |r|)
  {
    if Contains(s, t) {
      ReplaceFirstShape(s, t, r);
    }
  }

  /** The text after the two prompt edits. */
  function Edited(src: string): string
  {
    ReplaceFirst(ReplaceFirst(src, NoGlobalsOld, NoGlobalsNew), AfterGlobalsOld, AfterGlobalsNew)
  }

  /** The insertion happens when the guard is absent and the marker present. */
  predicate Inserts(s: string)
  {
    !Contains(s, Guard) && Contains(s, Marker)
  }

  /** `s.replace(marker, handler + '\n' + marker)`. */
  function Insert(s: string, rest: string): string
  {
    ReplaceFirst(s, Marker, Handler(rest) + "\n" + Marker)
  }

  /** The text the script ends with (written or not). */
  function Output(src: string, rest: string): string
  {
    var s := Edited(src);
    if Inserts(s) then Insert(s, rest) else s
  }

  /** What the script writes: `None` when it reports that nothing changed. */
  function PatchV33(src: string, rest: string): Option<string>
  {
    var s1 := ReplaceFirst(src, NoGlobalsOld, NoGlobalsNew);
    var s2 := ReplaceFirst(s1, AfterGlobalsOld, AfterGlobalsNew);
    if s1 != src || s2 != s1 || Inserts(s2) then Some(Output(src, rest)) else None
  }

  /** The script, step by step. */
  method ApplyV33Patch(src: string, rest: string) returns (written: Option<string>)
    ensures written == PatchV33(src, rest)
  {
    var s := src;
    var changed := false;
    var before := s;
    s := ReplaceFirst(s, NoGlobalsOld, NoGlobalsNew);
    if s != before {
      changed := true;
    }
    before := s;
    s := ReplaceFirst(s, AfterGlobalsOld, AfterGlobalsNew);
    if s != before {
      changed := true;
    }
    if !Contains(s, Guard) {
      var handler := Handler(rest);
      if Contains(s, Marker) {
        s := ReplaceFirst(s, Marker, handler + "\n" + Marker);
        changed := true;
      }
    }
    if !changed {
      written := None;
    } else {
      written := Some(s);
    }
  }

  /** Replacing the first marker by `h + '\n' + marker` puts `h` and a line break just before it. */
  lemma InsertBeforeFirst(s: string, m: string, h: string)
    requires Contains(s, m)
    ensures var i := IndexOf(s, m).value;
      ReplaceFirst(s, m, h + "\n" + m) == s[..i] + h + ("\n" + s[i..])
  {
    var i := IndexOf(s, m).value;
    ReplaceFirstShape(s, m, h + "\n" + m);
    assert s[i..] == m + s[i + |m|..];
  }

  /**
   * The handler goes in once, immediately before the first occurrence of the
   * marker, and only when the guard text is absent.
   */
  lemma InsertedBeforeFirstMarker(src: string, rest: string)
    requires Inserts(Edited(src))
    ensures var s := Edited(src);
      var i := IndexOf(s, Marker).value;
      && OccursAt(s, Marker, i) && (forall j: nat :: j < i ==> !OccursAt(s, Marker, j))
      && PatchV33(src, rest) == Some(s[..i] + Handler(rest) + ("\n" + s[i..]))
      && Contains(PatchV33(src, rest).value, Guard)
  {
    var s := Edited(src);
    var i := IndexOf(s, Marker).value;
    var h := Handler(rest);
    InsertBeforeFirst(s, Marker, h);
    HandlerHoldsGuard(rest);
    ContainsInLeft(s[..i] + h, "\n" + s[i..], Guard) by {
      ContainsInRight(s[..i], h, Guard);
    }
  }

  /** With the guard present, or the marker absent, only the prompt edits remain. */
  lemma NoInsertion(src: string, rest: string)
    requires !Inserts(Edited(src))
    ensures PatchV33(src, rest) == if Edited(src) != src then Some(Edited(src)) else None
  {
  }

  /**
   * The file is written exactly when one of the steps changed the text; when
   * nothing is written the text is as it was.
   */
  lemma WrittenIffSomeStepChanged(src: string, rest: string)
    ensures var s1 := ReplaceFirst(src, NoGlobalsOld, NoGlobalsNew);
      var s2 := Edited(src);
      && (PatchV33(src, rest).Some? <==> s1 != src || s2 != s1 || Output(src, rest) != s2)
      && (PatchV33(src, rest).None? ==> Output(src, rest) == src)
  {
    var s2 := Edited(src);
    if Inserts(s2) {
      ReplaceFirstShape(s2, Marker, Handler(rest) + "\n" + Marker);
      assert |Insert(s2, rest)| > |s2|;
    }
  }

  /** The file after a run: what was written, or the original. */
  function FileAfter(src: string, rest: string): string
  {
    var w := PatchV33(src, rest);
    if w.Some? then w.value else src
  }

  /** After a run the handler is never inserted again. */
  lemma InsertionGuarded(src: string, rest: string)
    ensures !Inserts(FileAfter(src, rest))
  {
    if Inserts(Edited(src)) {
      InsertedBeforeFirstMarker(src, rest);
    }
  }

  /**
   * Running twice equals running once: once the prompt targets are gone, a
   * second run changes nothing and writes nothing.
   */
  lemma SecondRunWritesNothing(src: string, rest: string)
    requires !Contains(FileAfter(src, rest), NoGlobalsOld) && !Contains(FileAfter(src, rest), AfterGlobalsOld)
    ensures PatchV33(FileAfter(src, rest), rest).None?
  {
    InsertionGuarded(src, rest);
  }
}
