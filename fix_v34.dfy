/**
 * fix_v34_syntax.js: repairs the text the v3.3 patches generated, inside
 * the slice of the chat route that runs from the first
 * `PASO_2_ESPERANDO_SERVICIO` condition to the next `PASO_2_ESPERANDO_CATEGORIA`
 * condition.  Four global replacements run on that slice, in order: the
 * two query chains written with backslash-n, every `.join('<blanks>')`, and
 * every `const texto = …;` statement.  Nothing is written when either
 * boundary is missing.
 */
module FixV34 {
  import opened Text
  import opened Pattern

  const BlockStart: string := "if (estado.step === 'PASO_2_ESPERANDO_SERVICIO'"
  const BlockEnd: string := "if (estado.step === 'PASO_2_ESPERANDO_CATEGORIA'"

  /** `\\n\\s*` in a regular expression: a backslash, 'n', a backslash, then any number of 's'. */
  const EscapedBreak: string := "\\n\\"

  /** A chained call `.c`. */
  function Dot(c: string): string { "." + c }

  /**
   * A query chain pattern: the head, then each call as `.call` after a run
   * of 's' (what `\\n\\s*` asks for after the head's and every call's `\\n\\`).
   */
  function Chained(head: string, calls: seq<string>): Pat
  {
    [Lit(head)] + Links(calls)
  }

  function Links(calls: seq<string>): Pat
  {
    if calls == [] then [] else [Star(Only('s')), Lit(Dot(calls[0]))] + Links(calls[1..])
  }

  /** The `servicios` query chain, with `\\n\\s*` between the calls. */
  const ServiciosChain: Pat := Chained("supabaseAuthed!\\n\\", [
    "from('servicios')\\n\\",
    "select('categoria, subcategoria_1, subcategoria_2')"])

  const ServiciosFixed: string :=
    "supabaseAuthed!\n        .from('servicios')\n        .select('categoria, subcategoria_1, subcategoria_2')"

  /** The `brief_preguntas` query chain, likewise. */
  const PreguntasChain: Pat := Chained("supabaseAuthed!\\n\\", [
    "from('brief_preguntas')\\n\\",
    "select('*')\\n\\",
    "eq('categoria', elegido.categoria)\\n\\",
    "eq('subcategoria_1', elegido.subcategoria_1)\\n\\",
    "eq('subcategoria_2', elegido.subcategoria_2)\\n\\",
    "order('orden', { ascending: true })"])

  const PreguntasFixed: string :=
    "supabaseAuthed!\n          .from('brief_preguntas')\n          .select('*')\n          .eq('categoria', elegido.categoria)\n          .eq('subcategoria_1', elegido.subcategoria_1)\n          .eq('subcategoria_2', elegido.subcategoria_2)\n          .order('orden', { ascending: true })"

  /** `/\.join\('\s*'\)/g`. */
  const BlankJoin: Pat := [Lit(Dot("join('")), Star(Space()), Lit("')")]

  /** `.join('\n')` with the two characters backslash and 'n'. */
  const JoinFixed: string := ".join('\\n')"

  /** `/const texto =[^;]+;/g`. */
  const TextoStatement: Pat := [Lit("const texto ="), Plus(NotChar(';')), Lit(";")]

  const TextoFixed: string :=
    "const texto = 'Entendido. Encontré varios servicios posibles para \"' + mensajeUsuario + '\":\\n' + lista + '\n¿Con cuál seguimos? Puedes responder con el número o el nombre completo.';"

  /** The links alternate: a run of a class without '.', then a literal starting with '.'. */
  predicate LinkShaped(l: Pat)
  {
    && |l| % 2 == 0
    && forall j :: 0 <= j < |l| ==>
         if j % 2 == 0 then l[j].Star? && !l[j].p('.') else l[j].Lit? && l[j].t != [] && l[j].t[0] == '.'
  }

  lemma {:induction false} LinksShaped(calls: seq<string>)
    ensures LinkShaped(Links(calls))
  {
    if calls != [] {
      LinksShaped(calls[1..]);
      var rest := Links(calls[1..]);
      var l := Links(calls);
      assert l == [Star(Only('s')), Lit(Dot(calls[0]))] + rest;
      assert !Only('s')('.');
      forall j | 2 <= j < |l|
        ensures l[j] == rest[j - 2] && (j - 2) % 2 == j % 2
      {
      }
    }
  }

  /** Greedy matching is exact for every chain pattern: each run of 's' stops at the '.' of the next call. */
  lemma ChainedGreedySafe(head: string, calls: seq<string>)
    requires head != []
    ensures StartsWithLiteral(Chained(head, calls)) && StarredClassesStop(Chained(head, calls))
  {
    LinksShaped(calls);
    var l := Links(calls);
    var pat := Chained(head, calls);
    forall k | 0 <= k < |pat| - 1 && (pat[k].Star? || pat[k].Plus?)
      ensures pat[k + 1].Lit? && pat[k + 1].t != [] && !pat[k].p(pat[k + 1].t[0])
    {
      assert pat[k] == l[k - 1] && pat[k + 1] == l[k];
    }
  }

  lemma ServiciosChainGreedySafe()
    ensures StartsWithLiteral(ServiciosChain) && StarredClassesStop(ServiciosChain)
  {
    ChainedGreedySafe("supabaseAuthed!\\n\\", [
      "from('servicios')\\n\\",
      "select('categoria, subcategoria_1, subcategoria_2')"]);
  }

  lemma PreguntasChainGreedySafe()
    ensures StartsWithLiteral(PreguntasChain) && StarredClassesStop(PreguntasChain)
  {
    ChainedGreedySafe("supabaseAuthed!\\n\\", [
      "from('brief_preguntas')\\n\\",
      "select('*')\\n\\",
      "eq('categoria', elegido.categoria)\\n\\",
      "eq('subcategoria_1', elegido.subcategoria_1)\\n\\",
      "eq('subcategoria_2', elegido.subcategoria_2)\\n\\",
      "order('orden', { ascending: true })"]);
  }

  lemma BlankJoinGreedySafe()
    ensures StartsWithLiteral(BlankJoin) && StarredClassesStop(BlankJoin)
  {
  }

  lemma TextoStatementGreedySafe()
    ensures StartsWithLiteral(TextoStatement) && StarredClassesStop(TextoStatement)
  {
  }

  /** The four replacements, in the script's order. */
  function FixBlock(block: string): string
  {
    var b1 := ReplaceAll(ServiciosChain, block, ServiciosFixed);
    var b2 := ReplaceAll(PreguntasChain, b1, PreguntasFixed);
    var b3 := ReplaceAll(BlankJoin, b2, JoinFixed);
    ReplaceAll(TextoStatement, b3, TextoFixed)
  }

  /** The slice the script edits: `[start, end)`. */
  function Bounds(s: string): (r: Option<(nat, nat)>)
    ensures r.Some? ==> r.value.0 <= r.value.1 <= |s|
  {
    match IndexOf(s, BlockStart)
    case None => None
    case Some(start) =>
      match IndexFrom(s, BlockEnd, start)
      case None => None
      case Some(end) => Some((start, end))
  }

  /** What the script writes, if anything. */
  function FixV34(s: string): Option<string>
  {
    match Bounds(s)
    case None => None
    case Some((start, end)) => Some(s[..start] + FixBlock(s[start..end]) + s[end..])
  }

  /** The script, step by step. */
  method ApplyFixV34(src: string) returns (written: Option<string>)
    ensures written == FixV34(src)
  {
    var s := src;
    var start := IndexOf(s, BlockStart);
    var end: Option<nat> := None;
    if start.Some? {
      end := IndexFrom(s, BlockEnd, start.value);
    }
    if start.Some? && end.Some? {
      var block := s[start.value..end.value];
      block := ReplaceAll(ServiciosChain, block, ServiciosFixed);
      block := ReplaceAll(PreguntasChain, block, PreguntasFixed);
      block := ReplaceAll(BlankJoin, block, JoinFixed);
      block := ReplaceAll(TextoStatement, block, TextoFixed);
      s := s[..start.value] + block + s[end.value..];
      written := Some(s);
    } else {
      written := None;
    }
  }

  /**
   * The slice starts at the first `PASO_2_ESPERANDO_SERVICIO` condition and
   * ends at the first `PASO_2_ESPERANDO_CATEGORIA` condition at or after it.
   */
  lemma BoundsAreFirstOccurrences(s: string)
    requires Bounds(s).Some?
    ensures var (start, end) := Bounds(s).value;
      && OccursAt(s, BlockStart, start) && (forall j: nat :: j < start ==> !OccursAt(s, BlockStart, j))
      && OccursAt(s, BlockEnd, end) && (forall j :: start <= j < end ==> !OccursAt(s, BlockEnd, j))
  {
  }

  /** Only the slice is rewritten; the text before and after it is kept as it was. */
  lemma FixV34Frame(s: string)
    requires FixV34(s).Some?
    ensures Bounds(s).Some?
    ensures var (start, end) := Bounds(s).value;
      var out := FixV34(s).value;
      && out == s[..start] + FixBlock(s[start..end]) + s[end..]
      && out[..start] == s[..start]
      && out[|out| - (|s| - end)..] == s[end..]
  {
  }

  /** Without both boundaries nothing is written. */
  lemma FixV34Missing(s: string)
    ensures FixV34(s).None? <==>
      !Contains(s, BlockStart) || forall j :: IndexOf(s, BlockStart).value <= j ==> !OccursAt(s, BlockEnd, j)
  {
  }

  /** Each `.join('<white space>')` becomes `.join('\n')`. */
  lemma BlankJoinFixed(w: string)
    requires AllSpace(w)
    ensures ReplaceAll(BlankJoin, ".join('" + w + "')", JoinFixed) == JoinFixed
  {
    assert Dot("join('") == ".join('";
    assert !Space()("')"[0]);
    TwoLiteralsReplaced(Space(), Dot("join('"), w, "')", JoinFixed);
  }

  /** Two literals with a run of one class between them are replaced as a whole. */
  lemma TwoLiteralsReplaced(p: char -> bool, a: string, w: string, c: string, r: string)
    requires c != [] && !p(c[0])
    requires forall k :: 0 <= k < |w| ==> p(w[k])
    ensures ReplaceAll([Lit(a), Star(p), Lit(c)], a + w + c, r) == r
  {
    LitStarThen(a, p, w, c, [Lit(c)]);
    assert MatchFrom([Lit(c)], c, 0) == Some(|c|) by { assert c[..|c|] == c; }
    assert [Lit(a), Star(p), Lit(c)] == [Lit(a), Star(p)] + [Lit(c)];
    ReplaceAllWhole([Lit(a), Star(p), Lit(c)], a + w + c, r);
  }

  /**
   * A `const texto =` span runs to the first ';' after it, whatever lies in
   * between: for a statement without a semicolon it takes in the next
   * lines, up to a ';' inside a later string such as 'text/plain; charset=utf-8'.
   */
  lemma TextoSpanEndsAtFirstSemicolon(s: string, i: nat, k: nat)
    requires OccursAt(s, "const texto =", i) && i + 13 < k < |s| && s[k] == ';'
    requires forall m :: i + 13 <= m < k ==> s[m] != ';'
    ensures MatchFrom(TextoStatement, s, i) == Some(k + 1)
  {
    RunEndFirstOutside(NotChar(';'), s, i + 13, k);
    assert OccursAt(s, ";", k) by { assert s[k..k + 1] == [s[k]]; }
    assert MatchFrom(TextoStatement, s, i) == MatchFrom(TextoStatement[1..], s, i + 13);
    assert MatchFrom(TextoStatement[1..], s, i + 13) == MatchFrom(TextoStatement[2..], s, k);
  }

  /**
   * The chain patterns want a backslash right after each backslash-n, so a
   * chain whose backslash-n is followed by indentation is left as it is.
   */
  lemma IndentedChainUnmatched(s: string, i: nat)
    requires i <= |s| && OccursAt(s, "supabaseAuthed!\\n ", i)
    ensures MatchFrom(ServiciosChain, s, i).None? && MatchFrom(PreguntasChain, s, i).None?
  {
    assert s[i + 17] == ' ' by { assert s[i..i + 18][17] == ' '; }
    assert !OccursAt(s, "supabaseAuthed!" + EscapedBreak, i) by {
      assert ("supabaseAuthed!" + EscapedBreak)[17] == '\\';
    }
  }

  // ---------------------------------------------------------------------------
  // What the patterns were evidently meant to match
  // ---------------------------------------------------------------------------

  /** The pieces of the `servicios` chain the second v3.3 patch writes. */
  const GeneratedHead: string := "supabaseAuthed!\\n"
  const ServiciosFrom: string := Dot("from('servicios')\\n")
  const ServiciosSelect: string := Dot("select('categoria, subcategoria_1, subcategoria_2')")

  /** The `servicios` chain as the second v3.3 patch writes it: backslash-n, then indentation. */
  function GeneratedServiciosChain(w1: string, w2: string): string
  {
    GeneratedHead + w1 + ServiciosFrom + w2 + ServiciosSelect
  }

  /** As written, the `servicios` pattern fails where the generated chain starts. */
  lemma ServiciosChainMissesGenerated(w1: string, w2: string)
    requires w1 != [] && w1[0] == ' '
    ensures MatchFrom(ServiciosChain, GeneratedServiciosChain(w1, w2), 0).None?
  {
    var x := GeneratedServiciosChain(w1, w2);
    assert x[..18] == "supabaseAuthed!\\n" + [w1[0]];
    IndentedChainUnmatched(x, 0);
  }

  /** The pattern with white space after each backslash-n, as `\\n\s*` was evidently meant. */
  const ServiciosChainIntended: Pat := [
    Lit(GeneratedHead), Star(Space()), Lit(ServiciosFrom), Star(Space()), Lit(ServiciosSelect)]

  /** Three literals with runs of one class between them are replaced as a whole. */
  lemma ThreeLiteralsReplaced(p: char -> bool, a: string, w1: string, b: string, w2: string, c: string, r: string)
    requires b != [] && c != [] && !p(b[0]) && !p(c[0])
    requires forall k :: 0 <= k < |w1| ==> p(w1[k])
    requires forall k :: 0 <= k < |w2| ==> p(w2[k])
    ensures ReplaceAll([Lit(a), Star(p), Lit(b), Star(p), Lit(c)], a + w1 + (b + w2 + c), r) == r
  {
    LitStarThen(a, p, w1, b + w2 + c, [Lit(b), Star(p), Lit(c)]);
    LitStarThen(b, p, w2, c, [Lit(c)]);
    assert MatchFrom([Lit(c)], c, 0) == Some(|c|) by { assert c[..|c|] == c; }
    assert [Lit(a), Star(p), Lit(b), Star(p), Lit(c)] == [Lit(a), Star(p)] + [Lit(b), Star(p), Lit(c)];
    assert [Lit(b), Star(p), Lit(c)] == [Lit(b), Star(p)] + [Lit(c)];
    ReplaceAllWhole([Lit(a), Star(p), Lit(b), Star(p), Lit(c)], a + w1 + (b + w2 + c), r);
  }

  /** The intended pattern rewrites the generated chain, whatever its indentation. */
  lemma IntendedChainFixesGenerated(w1: string, w2: string)
    requires AllSpace(w1) && AllSpace(w2)
    ensures ReplaceAll(ServiciosChainIntended, GeneratedServiciosChain(w1, w2), ServiciosFixed) == ServiciosFixed
  {
    assert ServiciosFrom[0] == '.' && ServiciosSelect[0] == '.';
    assert !Space()('.');
    ThreeLiteralsReplaced(Space(), GeneratedHead, w1, ServiciosFrom, w2, ServiciosSelect, ServiciosFixed);
    assert GeneratedServiciosChain(w1, w2) == GeneratedHead + w1 + (ServiciosFrom + w2 + ServiciosSelect);
  }

  /**
   * As written: a `const texto =` statement without a ';' of its own, as the
   * v3.3 patches generate them, takes the next line with it up to the ';'
   * in that line.
   */
  lemma TextoSwallowsNextLine(a: string, b: string, c: string)
    requires a != [] && ';' !in a && ';' !in b
    ensures MatchFrom(TextoStatement, "const texto =" + a + "\n" + b + ";" + c, 0)
      == Some(13 + |a| + 1 + |b| + 1)
  {
    var x := "const texto =" + a + "\n" + b + ";" + c;
    var k := 13 + |a| + 1 + |b|;
    assert OccursAt(x, "const texto =", 0) by { assert x[..13] == "const texto ="; }
    assert x[k] == ';';
    assert forall m :: 13 <= m < k ==> x[m] != ';' by {
      assert forall m :: 13 <= m < 13 + |a| ==> x[m] == a[m - 13];
      assert forall m :: 13 + |a| + 1 <= m < k ==> x[m] == b[m - 13 - |a| - 1];
    }
    TextoSpanEndsAtFirstSemicolon(x, 0, k);
  }

  /**
   * The statement pattern evidently intended, `/const texto =[^;]*?completo\.'/`:
   * the ambiguous-reply statement up to the end of its last literal, which
   * is the statement `TextoFixed` is written to replace.
   */
  const TextoStatementIntended: Pat := [Lit("const texto ="), LazyTo(NotChar(';'), TextoEnd)]

  const TextoEnd: string := "completo.'"

  /** Where `completo.'` occurs, its ninth and tenth characters are a '.' and a quote. */
  lemma TextoEndChars(x: string, k: nat)
    ensures OccursAt(x, TextoEnd, k) ==> x[k + 8] == '.' && x[k + 9] == '\''
  {
    if OccursAt(x, TextoEnd, k) {
      assert x[k + 8] == x[k..k + 10][8] && x[k + 9] == x[k..k + 10][9];
    }
  }

  /** `completo.'` does not start before `e` when its only earlier '.' is followed by a space. */
  lemma NoTextoEndBefore(x: string, d: nat, e: nat, k: nat)
    requires d + 2 <= e && k < e && e + 10 <= |x| && x[e..e + 10] == TextoEnd
    requires x[d + 1] == ' ' && forall m :: k <= m < e && m != d ==> x[m] != '.'
    ensures !OccursAt(x, TextoEnd, k)
  {
    TextoEndChars(x, k);
    if e <= k + 8 {
      assert x[k + 8] == x[e..e + 10][k + 8 - e];
    }
  }

  /** Between the head and `e` the lazy run's class holds and its literal does not start. */
  lemma LazyBodyAt(x: string, d: nat, e: nat)
    requires 13 <= d && d + 2 <= e && e + 10 <= |x| && x[e..e + 10] == TextoEnd
    requires x[d] == '.' && x[d + 1] == ' '
    requires forall m :: 13 <= m < e && m != d ==> x[m] != '.' && x[m] != ';'
    ensures forall k :: 13 <= k < e ==> NotChar(';')(x[k]) && !OccursAt(x, TextoEnd, k)
  {
    forall k | 13 <= k < e
      ensures NotChar(';')(x[k]) && !OccursAt(x, TextoEnd, k)
    {
      NoTextoEndBefore(x, d, e, k);
    }
  }

  /** The intended match from a statement head ends right after the first `completo.'`. */
  lemma IntendedSpanAt(x: string, d: nat, e: nat)
    requires 13 <= d && d + 2 <= e && e + 10 <= |x|
    requires OccursAt(x, "const texto =", 0) && x[e..e + 10] == TextoEnd
    requires x[d] == '.' && x[d + 1] == ' '
    requires forall m :: 13 <= m < e && m != d ==> x[m] != '.' && x[m] != ';'
    ensures MatchFrom(TextoStatementIntended, x, 0) == Some(e + 10)
  {
    LazyBodyAt(x, d, e);
    LazyEndAt(NotChar(';'), TextoEnd, x, 13, e);
    MatchLitStep(TextoStatementIntended, x, 0);
  }

  /**
   * The intended pattern takes a statement whose only '.' before its
   * closing `completo.'` is followed by a space, and nothing after it: the
   * match ends with the statement's own literal, wherever the line breaks fall.
   */
  lemma IntendedTextoSpan(a: string, c: string, b: string, d: string)
    requires ';' !in a && ';' !in c && '.' !in a && '.' !in c
    ensures MatchFrom(TextoStatementIntended, "const texto =" + (a + ". " + c + TextoEnd) + "\n" + b + ";" + d, 0)
      == Some(13 + |a| + 2 + |c| + 10)
  {
    var x := "const texto =" + (a + ". " + c + TextoEnd) + "\n" + b + ";" + d;
    var i := 13 + |a|;
    var e := i + 2 + |c|;
    assert x[..13] == "const texto =";
    assert x[e..e + 10] == TextoEnd;
    forall m | 13 <= m < e && m != i
      ensures x[m] != '.' && x[m] != ';'
    {
      if m < i {
        assert x[m] == a[m - 13] && a[m - 13] in a;
      } else if i + 2 <= m {
        assert x[m] == c[m - i - 2] && c[m - i - 2] in c;
      }
    }
    IntendedSpanAt(x, i, e);
  }
}
