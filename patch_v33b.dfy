/**
 * apply_v33_patch2.js: the same two prompt edits and the same guarded
 * insertion as apply_v33_patch.js, with a handler whose single-match case
 * also stores the fetched questions (ServiceMatcher.V33b).  Its `changed`
 * flag compares the text with the ORIGINAL file after each edit, instead of
 * with the text before that edit.
 *
 * Two lines of the generated handler, the `servicios` and `brief_preguntas`
 * query chains, are single-quoted JavaScript strings holding `\\n`: the file
 * receives the two characters backslash and 'n', then the indentation, where
 * line breaks were meant.
 */
module PatchV33b {
  import opened Text
  import opened Pattern
  import PatchV33
  import FixV34

  /** What the script writes: `None` when it reports that nothing changed. */
  function PatchV33b(src: string, rest: string): Option<string>
  {
    var s1 := ReplaceFirst(src, PatchV33.NoGlobalsOld, PatchV33.NoGlobalsNew);
    var changed1 := s1 != src;
    var s2 := ReplaceFirst(s1, PatchV33.AfterGlobalsOld, PatchV33.AfterGlobalsNew);
    var changed2 := changed1 || s2 != src;
    if changed2 || PatchV33.Inserts(s2) then Some(PatchV33.Output(src, rest)) else None
  }

  /** The script, step by step. */
  method ApplyV33Patch2(src: string, rest: string) returns (written: Option<string>)
    ensures written == PatchV33b(src, rest)
  {
    var s := src;
    var changed := false;
    s := ReplaceFirst(s, PatchV33.NoGlobalsOld, PatchV33.NoGlobalsNew);
    if s != src {
      changed := true;
    }
    s := ReplaceFirst(s, PatchV33.AfterGlobalsOld, PatchV33.AfterGlobalsNew);
    if s != src {
      changed := true;
    }
    if !Contains(s, PatchV33.Guard) {
      var handler := PatchV33.Handler(rest);
      if Contains(s, PatchV33.Marker) {
        s := ReplaceFirst(s, PatchV33.Marker, handler + "\n" + PatchV33.Marker);
        changed := true;
      }
    }
    if !changed {
      written := None;
    } else {
      written := Some(s);
    }
  }

  /**
   * After the two edits the cumulative flag holds exactly when the text
   * differs from the original: both edits only ever shorten the text, so a
   * change by the first cannot be undone by the second.
   */
  lemma CumulativeFlag(src: string)
    ensures var s1 := ReplaceFirst(src, PatchV33.NoGlobalsOld, PatchV33.NoGlobalsNew);
      var s2 := ReplaceFirst(s1, PatchV33.AfterGlobalsOld, PatchV33.AfterGlobalsNew);
      && (s1 != src || s2 != src <==> s2 != src)
      && (s1 != src || s2 != s1 <==> s2 != src)
  {
    var s1 := ReplaceFirst(src, PatchV33.NoGlobalsOld, PatchV33.NoGlobalsNew);
    PatchV33.EditsShorten();
    PatchV33.ReplaceFirstChanges(src, PatchV33.NoGlobalsOld, PatchV33.NoGlobalsNew);
    PatchV33.ReplaceFirstChanges(s1, PatchV33.AfterGlobalsOld, PatchV33.AfterGlobalsNew);
  }

  /**
   * Given the same handler text, comparing with the original or with the
   * previous text writes the same file.
   */
  lemma DriversAgree(src: string, rest: string)
    ensures PatchV33b(src, rest) == PatchV33.PatchV33(src, rest)
  {
    CumulativeFlag(src);
  }

  /** The guard is again part of the handler, so a second run adds nothing. */
  lemma SecondRunWritesNothing(src: string, rest: string)
    requires var f := PatchV33.FileAfter(src, rest);
      !Contains(f, PatchV33.NoGlobalsOld) && !Contains(f, PatchV33.AfterGlobalsOld)
    ensures PatchV33b(PatchV33.FileAfter(src, rest), rest).None?
    ensures !PatchV33.Inserts(PatchV33.FileAfter(src, rest))
  {
    PatchV33.SecondRunWritesNothing(src, rest);
    PatchV33.InsertionGuarded(src, rest);
    DriversAgree(PatchV33.FileAfter(src, rest), rest);
  }

  // ---------------------------------------------------------------------------
  // The two query lines the handler receives
  // ---------------------------------------------------------------------------

  const ChainHead: string := "supabaseAuthed!\\n"
  const Indent8: string := "        "
  const Indent10: string := "          "

  const ServiciosLinePrefix: string := "      const { data: servRows, error: servErr } = await "
  const PreguntasLinePrefix: string := "        const { data: preguntasEspec, error: peErr } = await "

  /** The `brief_preguntas` chain after its first backslash-n and indentation. */
  const PreguntasChainTail: string :=
    ".from('brief_preguntas')\\n          .select('*')\\n          .eq('categoria', elegido.categoria)\\n          .eq('subcategoria_1', elegido.subcategoria_1)\\n          .eq('subcategoria_2', elegido.subcategoria_2)\\n          .order('orden', { ascending: true })"

  /** Handler line 32: the `servicios` query with backslash-n and eight spaces. */
  function ServiciosLine(): string
  {
    ServiciosLinePrefix + FixV34.GeneratedServiciosChain(Indent8, Indent8)
  }

  /** Handler line 50: the `brief_preguntas` query with backslash-n and ten spaces. */
  function PreguntasLine(): string
  {
    PreguntasLinePrefix + (ChainHead + Indent10 + PreguntasChainTail)
  }

  /** A chain head followed by indentation reads backslash, 'n', space. */
  lemma HeadIndented(p: string, w: string, x: string)
    requires w != [] && w[0] == ' '
    ensures OccursAt(p + (ChainHead + w + x), "supabaseAuthed!\\n ", |p|)
  {
    var g := ChainHead + w + x;
    assert g[..18] == ChainHead + [w[0]];
    assert (p + g)[|p|..|p| + 18] == g[..18];
  }

  /**
   * Both generated query lines hold backslash-n followed by indentation, so
   * where each chain starts neither of the repair patterns of fix_v34_syntax.js
   * matches.
   */
  lemma ServiciosLineUnmatched()
    ensures var s := ServiciosLine(); var i := |ServiciosLinePrefix|;
      i <= |s| && OccursAt(s, "supabaseAuthed!\\n ", i)
      && MatchFrom(FixV34.ServiciosChain, s, i).None?
  {
    var rest := FixV34.ServiciosFrom + Indent8 + FixV34.ServiciosSelect;
    assert FixV34.GeneratedServiciosChain(Indent8, Indent8) == ChainHead + Indent8 + rest;
    HeadIndented(ServiciosLinePrefix, Indent8, rest);
    FixV34.IndentedChainUnmatched(ServiciosLine(), |ServiciosLinePrefix|);
  }

  lemma PreguntasLineUnmatched()
    ensures var s := PreguntasLine(); var i := |PreguntasLinePrefix|;
      i <= |s| && OccursAt(s, "supabaseAuthed!\\n ", i)
      && MatchFrom(FixV34.PreguntasChain, s, i).None?
  {
    HeadIndented(PreguntasLinePrefix, Indent10, PreguntasChainTail);
    FixV34.IndentedChainUnmatched(PreguntasLine(), |PreguntasLinePrefix|);
  }

  // ---------------------------------------------------------------------------
  // The ambiguous-reply statement and the line after it (handler lines 66-67)
  // ---------------------------------------------------------------------------

  /** Line 66 after `const texto =`, cut at its one '.' and before its closing `completo.'`. */
  const AmbiguousOpening: string := " 'Entendido"
  const AmbiguousMiddle: string := Middle1 + Middle2 + Middle3 + Middle4
  const Middle1: string := "Encontré varios " + "servicios " + "posibles para "
  const Middle2: string := "\"' + mensaje" + "Usuario + '\":" + "\n' + lista + '"
  const Middle3: string := "\n¿Con cuál " + "seguimos? " + "Puedes " + "responder "
  const Middle4: string := "con el " + "número o " + "el nombre "

  /** Neither ';' nor '.': text the two statement patterns read straight through. */
  predicate Plain(x: string) { ';' !in x && '.' !in x }

  lemma PlainJoin(x: string, y: string)
    requires Plain(x) && Plain(y)
    ensures Plain(x + y)
  {
  }

  lemma Middle1Plain() ensures Plain(Middle1) {}
  lemma Middle2Plain() ensures Plain(Middle2) {}
  lemma Middle3Plain() ensures Plain(Middle3) {}
  lemma Middle4Plain() ensures Plain(Middle4) {}

  /** The middle of line 66 holds neither ';' nor '.'. */
  lemma MiddlePlain()
    ensures Plain(AmbiguousMiddle)
  {
    Middle1Plain();
    Middle2Plain();
    Middle3Plain();
    Middle4Plain();
    PlainJoin(Middle1, Middle2);
    PlainJoin(Middle1 + Middle2, Middle3);
    PlainJoin(Middle1 + Middle2 + Middle3, Middle4);
  }

  /** Handler line 66 after `const texto =`. */
  function AmbiguousText(): string
  {
    AmbiguousOpening + ". " + AmbiguousMiddle + FixV34.TextoEnd
  }

  /** Handler line 66: a statement with no ';' and two raw line breaks inside its literals. */
  function AmbiguousStatement(): string
  {
    "const texto =" + AmbiguousText()
  }

  /** Handler line 67, around the ';' inside its content type. */
  const ReplyHead: string :=
    Indent8 + "return new " + "NextResponse(" + "texto, { " + "headers: { " + "'Content-" + "Type': " + "'text/plain"
  const ReplyTail: string := " charset=utf-8' } })"

  lemma ReplyHeadNoSemicolon() ensures ';' !in ReplyHead {}

  lemma TextNoSemicolon()
    ensures ';' !in AmbiguousText()
  {
    MiddlePlain();
    assert ';' !in AmbiguousOpening && ';' !in ". " && ';' !in FixV34.TextoEnd;
  }

  /**
   * As written, the statement pattern of fix_v34_syntax.js, matched where
   * line 66 starts its statement, takes line 67 too, up to the ';' of
   * 'text/plain; charset=utf-8', so the replacement cuts the `return` line
   * in two.
   */
  lemma GeneratedTextoSwallowsReply()
    ensures MatchFrom(FixV34.TextoStatement, AmbiguousStatement() + "\n" + ReplyHead + ";" + ReplyTail, 0)
      == Some(|AmbiguousStatement()| + 1 + |ReplyHead| + 1)
  {
    TextNoSemicolon();
    ReplyHeadNoSemicolon();
    FixV34.TextoSwallowsNextLine(AmbiguousText(), ReplyHead, ReplyTail);
  }

  /** The intended pattern takes the statement of line 66 exactly, and the `return` line stays whole. */
  lemma GeneratedTextoIntendedSpan()
    ensures MatchFrom(FixV34.TextoStatementIntended, AmbiguousStatement() + "\n" + ReplyHead + ";" + ReplyTail, 0)
      == Some(|AmbiguousStatement()|)
  {
    MiddlePlain();
    assert Plain(AmbiguousOpening);
    FixV34.IntendedTextoSpan(AmbiguousOpening, AmbiguousMiddle, ReplyHead, ReplyTail);
  }
}
