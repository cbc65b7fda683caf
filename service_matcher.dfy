/**
 * The open service search that both v3.3 patches insert into the chat
 * route as the `PASO_2_ESPERANDO_SERVICIO` handler: every row of the
 * `servicios` table gets a score against the user's words, rows scoring
 * zero are dropped, the rest are ordered by score and then by text length,
 * and the number of survivors decides what happens next.
 *
 * `normalizeText` is not part of this model; it is the parameter `norm`.
 * Database queries are parameters holding what they returned.
 */
module ServiceMatcher {
  import opened Text
  import opened Seqs
  import opened Pattern
  import opened Herramientas

  // ---------------------------------------------------------------------------
  // Rows and JavaScript coercions
  // ---------------------------------------------------------------------------

  datatype ServRow = ServRow(categoria: JsStr, subcategoria_1: JsStr, subcategoria_2: JsStr)

  /** `v || ''`. */
  function OrEmpty(v: JsStr): (r: string)
    ensures Falsy(v) ==> r == []
    ensures !Falsy(v) ==> r == v.s && r != []
  {
    if Falsy(v) then "" else v.s
  }

  /** `'' + v`: how JavaScript turns the value into text. */
  function JsText(v: JsStr): string
  {
    match v
    case Undef => "undefined"
    case Null => "null"
    case Str(s) => s
  }

  // ---------------------------------------------------------------------------
  // Words: `entrada.split(/\s+/).filter(Boolean)`
  // ---------------------------------------------------------------------------

  function NotSpace(): char -> bool { (c: char) => !IsSpace(c) }

  /** The maximal runs of non-white-space characters from position `i` on. */
  function WordsFrom(s: string, i: nat): (ws: seq<string>)
    requires i <= |s|
    ensures forall w :: w in ws ==> w != [] && Contains(s, w)
    decreases |s| - i
  {
    if i == |s| then []
    else if IsSpace(s[i]) then WordsFrom(s, i + 1)
    else
      var j := RunEnd(NotSpace(), s, i);
      assert OccursAt(s, s[i..j], i);
      [s[i..j]] + WordsFrom(s, j)
  }

  function Words(s: string): (ws: seq<string>)
    ensures forall w :: w in ws ==> w != [] && Contains(s, w)
  {
    WordsFrom(s, 0)
  }

  /** There are no words exactly when the text is all white space. */
  lemma {:induction false} WordsFromEmptyIff(s: string, i: nat)
    requires i <= |s|
    ensures WordsFrom(s, i) == [] <==> forall k :: i <= k < |s| ==> IsSpace(s[k])
    decreases |s| - i
  {
    if i < |s| && IsSpace(s[i]) {
      WordsFromEmptyIff(s, i + 1);
    }
  }

  lemma WordsEmptyIff(s: string)
    ensures Words(s) == [] <==> AllSpace(s)
  {
    WordsFromEmptyIff(s, 0);
  }

  // ---------------------------------------------------------------------------
  // Score
  // ---------------------------------------------------------------------------

  /** `tokens.every((t) => servNorm.includes(t) || comboNorm.includes(t))` with at least one token. */
  predicate AllTokensOccur(tokens: seq<string>, serv: string, combo: string)
  {
    |tokens| > 0 && forall t :: t in tokens ==> Contains(serv, t) || Contains(combo, t)
  }

  /** `tokens.some(…servNorm…) || tokens.some(…comboNorm…)`. */
  predicate SomeTokenOccurs(tokens: seq<string>, serv: string, combo: string)
  {
    (exists t :: t in tokens && Contains(serv, t)) || (exists t :: t in tokens && Contains(combo, t))
  }

  /** The whole input, at least four UTF-16 code units long, occurs. */
  predicate InputOccurs(entrada: string, serv: string, combo: string)
  {
    Utf16Length(entrada) >= 4 && (Contains(serv, entrada) || Contains(combo, entrada))
  }

  function Score(tokens: seq<string>, entrada: string, serv: string, combo: string): nat
  {
    if AllTokensOccur(tokens, serv, combo) then 3
    else if SomeTokenOccurs(tokens, serv, combo) then 2
    else if InputOccurs(entrada, serv, combo) then 1
    else 0
  }

  /**
   * A row that contains the whole input contains each of its words, so
   * score 1 is only given to an input with no words at all: one made of at
   * least four white-space characters.
   */
  lemma ScoreOneOnlyWithoutWords(entrada: string, serv: string, combo: string)
    requires Score(Words(entrada), entrada, serv, combo) == 1
    ensures Words(entrada) == [] && AllSpace(entrada) && Utf16Length(entrada) >= 4
  {
    var tokens := Words(entrada);
    if tokens != [] {
      var t := tokens[0];
      assert t in tokens;
      if Contains(serv, entrada) {
        ContainsTransitive(serv, entrada, t);
      } else {
        ContainsTransitive(combo, entrada, t);
      }
      assert false;
    }
    WordsEmptyIff(entrada);
  }

  /** Scores are 3, 2, 1 or 0, each for its own reason. */
  lemma ScoreCases(tokens: seq<string>, entrada: string, serv: string, combo: string)
    ensures var n := Score(tokens, entrada, serv, combo);
      && (n == 3 <==> AllTokensOccur(tokens, serv, combo))
      && (n >= 2 <==> AllTokensOccur(tokens, serv, combo) || SomeTokenOccurs(tokens, serv, combo))
      && (n == 0 <==> !AllTokensOccur(tokens, serv, combo) && !SomeTokenOccurs(tokens, serv, combo)
                      && !InputOccurs(entrada, serv, combo))
  {
  }

  // ---------------------------------------------------------------------------
  // Candidates: map, filter, stable sort
  // ---------------------------------------------------------------------------

  datatype Candidato = Candidato(raw: ServRow, score: nat, len: nat)

  /** `normalizeText(String(r.subcategoria_2 || ''))`. */
  function ServNorm(norm: string -> string, r: ServRow): string
  {
    norm(OrEmpty(r.subcategoria_2))
  }

  /** The three names joined by spaces, normalized. */
  function ComboNorm(norm: string -> string, r: ServRow): string
  {
    norm(OrEmpty(r.categoria) + " " + OrEmpty(r.subcategoria_1) + " " + OrEmpty(r.subcategoria_2))
  }

  /** Each row's score, and the JavaScript `.length` of its two texts as the tie-break. */
  function Scored(norm: string -> string, entrada: string): ServRow -> Candidato
  {
    (r: ServRow) =>
      var serv := ServNorm(norm, r);
      var combo := ComboNorm(norm, r);
      Candidato(r, Score(Words(entrada), entrada, serv, combo), Utf16Length(serv) + Utf16Length(combo))
  }

  function Positive(): Candidato -> bool { (c: Candidato) => c.score > 0 }

  /** `(b.score - a.score) || (b.len - a.len)`: higher score first, then longer text. */
  function ByScoreThenLength(): Candidato -> Rank { (c: Candidato) => Rank(-(c.score as int), -(c.len as int)) }

  /** The surviving rows, scored, before ordering. */
  function Survivors(norm: string -> string, entrada: string, rows: seq<ServRow>): seq<Candidato>
  {
    Filter(Positive(), Map(Scored(norm, entrada), rows))
  }

  /** `candidatosServ`. */
  function Candidates(norm: string -> string, entrada: string, rows: seq<ServRow>): seq<Candidato>
  {
    SortBy(ByScoreThenLength(), Survivors(norm, entrada, rows))
  }

  /**
   * The candidates are exactly the rows scoring above zero, each once per
   * row, ordered by score and then length, both descending, with full ties
   * in the order the query returned them.
   */
  lemma CandidatesSpec(norm: string -> string, entrada: string, rows: seq<ServRow>, k: Rank)
    ensures var c := Candidates(norm, entrada, rows);
      && multiset(c) == multiset(Survivors(norm, entrada, rows))
      && (forall x :: x in c <==> x in Map(Scored(norm, entrada), rows) && x.score > 0)
      && SortedBy(ByScoreThenLength(), c)
      && OfRank(ByScoreThenLength(), k, c) == OfRank(ByScoreThenLength(), k, Survivors(norm, entrada, rows))
  {
    var m := Map(Scored(norm, entrada), rows);
    var c := Candidates(norm, entrada, rows);
    FilterMembers(Positive(), m);
    forall x ensures x in c <==> x in Survivors(norm, entrada, rows) {
      assert x in c <==> x in multiset(c);
    }
    SortBySorted(ByScoreThenLength(), Survivors(norm, entrada, rows));
    SortByStable(ByScoreThenLength(), k, Survivors(norm, entrada, rows));
  }

  /** Ordering by rank puts higher scores first, and longer texts first among equal scores. */
  lemma SortedMeansHigherFirst(c: seq<Candidato>, i: nat, j: nat)
    requires SortedBy(ByScoreThenLength(), c) && i < j < |c|
    ensures c[i].score > c[j].score || (c[i].score == c[j].score && c[i].len >= c[j].len)
  {
    assert RankLe(ByScoreThenLength()(c[i]), ByScoreThenLength()(c[j]));
  }

  // ---------------------------------------------------------------------------
  // Distinct categories for the no-match reply
  // ---------------------------------------------------------------------------

  /** `Array.from(new Set(xs))` after skipping `seen`: first occurrences, in order. */
  function DistinctFrom(xs: seq<string>, seen: set<string>): (r: seq<string>)
    ensures forall x :: x in r <==> x in xs && x !in seen
    ensures forall i, j :: 0 <= i < j < |r| ==> r[i] != r[j]
  {
    if xs == [] then []
    else if xs[0] in seen then DistinctFrom(xs[1..], seen)
    else [xs[0]] + DistinctFrom(xs[1..], seen + {xs[0]})
  }

  /** `(filas || []).map((r) => r.categoria).filter(Boolean)`. */
  function TruthyCategories(filas: Option<seq<JsStr>>): (r: seq<string>)
    ensures forall c :: c in r ==> c != []
    ensures filas.Some? ==> forall c :: c in r <==> Str(c) in filas.value && c != []
    ensures filas.None? ==> r == []
    decreases if filas.Some? then |filas.value| else 0
  {
    if filas.None? then []
    else
      var vs := filas.value;
      if vs == [] then []
      else
        var rest := TruthyCategories(Some(vs[1..]));
        assert forall v :: v in vs <==> v == vs[0] || v in vs[1..];
        if Falsy(vs[0]) then rest else [vs[0].s] + rest
  }

  /** `cats2`: each non-empty category once, in the order first returned. */
  function Categories(filas: Option<seq<JsStr>>): (r: seq<string>)
  {
    DistinctFrom(TruthyCategories(filas), {})
  }

  lemma CategoriesSpec(filas: Option<seq<JsStr>>)
    ensures var r := Categories(filas);
      && (forall i, j :: 0 <= i < j < |r| ==> r[i] != r[j])
      && (forall c :: c in r ==> c != [])
      && (filas.Some? ==> forall c :: c in r <==> Str(c) in filas.value && c != [])
      && (filas.None? ==> r == [])
  {
  }

  // ---------------------------------------------------------------------------
  // The handler
  // ---------------------------------------------------------------------------

  /** The two patches write the same pipeline and differ in the single-match state. */
  datatype Variant = V33 | V33b

  type Answers = map<string, string>

  /** A row of `brief_preguntas`, with the fields the handler reads. */
  datatype PreguntaRow = PreguntaRow(pregunta_texto: JsStr, pregunta: JsStr, texto: JsStr, enunciado: JsStr)

  /** The session entry as the handler reads it. */
  datatype Estado = Estado(step: string, clienteId: Option<int>, clienteNombre: JsStr,
                           subdivision: JsStr, respuestasGlobales: Answers)

  /** What `sessionStates.set(user.id, …)` stores. */
  datatype Siguiente =
    | Especificas(clienteId: int, clienteNombre: string, subdivision: JsStr,
                  servicioCategoria: JsStr, subcategoria1: JsStr, subcategoria2: JsStr,
                  respuestasGlobales: Answers,
                  preguntas: Option<seq<PreguntaRow>>, indice: Option<nat>,
                  respuestasEspecificas: Option<Answers>)
    | ServicioAmbiguo(clienteId: int, clienteNombre: string, subdivision: JsStr,
                      opcionesServicios: seq<ServRow>, respuestasGlobales: Answers)

  /** A Supabase answer: rows, or an error with its message. */
  datatype Query<T> = Query(data: Option<seq<T>>, error: Option<string>)

  /** `Array.isArray(data) ? data : []`. */
  function RowsOf<T>(q: Query<T>): seq<T>
  {
    if q.data.Some? then q.data.value else []
  }

  datatype Outcome =
    | NotHandled
    | Failed(status: nat, error: string, details: string)
    | Replied(text: string, next: Option<Siguiente>)

  /** `estado.clienteId || 0`. */
  function ClienteId(e: Estado): int
  {
    if e.clienteId.None? || e.clienteId.value == 0 then 0 else e.clienteId.value
  }

  /** `estado.subdivision || null`. */
  function Subdivision(e: Estado): JsStr
  {
    if Falsy(e.subdivision) then Null else e.subdivision
  }

  /** The single-match state; only the second patch stores the questions, `indice` and the answers. */
  function SingleState(v: Variant, e: Estado, elegido: ServRow, arrE: seq<PreguntaRow>): Siguiente
  {
    Especificas(ClienteId(e), OrEmpty(e.clienteNombre), Subdivision(e),
                elegido.categoria, elegido.subcategoria_1, elegido.subcategoria_2,
                e.respuestasGlobales,
                if v == V33b then Some(arrE) else None,
                if v == V33b then Some(0) else None,
                if v == V33b then Some(map[]) else None)
  }

  /** `textoQ`: the first question's text, through the field names the table has had. */
  function FirstQuestion(arrE: seq<PreguntaRow>): string
  {
    if arrE == [] then "Primera pregunta específica"
    else
      var q := arrE[0];
      if !Falsy(q.pregunta_texto) then q.pregunta_texto.s
      else if !Falsy(q.pregunta) then q.pregunta.s
      else if !Falsy(q.texto) then q.texto.s
      else if !Falsy(q.enunciado) then q.enunciado.s
      else "Primera pregunta específica"
  }

  function Lead(elegido: ServRow): string
  {
    "Perfecto. Servicio: " + JsText(elegido.categoria) + " / " + JsText(elegido.subcategoria_1)
      + " / " + JsText(elegido.subcategoria_2) + "."
  }

  /** One numbered option: `(i + 1) + '. ' + CATEGORIA / SUB 1 / SUB 2`, each trimmed and upper-cased. */
  function OptionLine(i: nat, r: ServRow): string
  {
    NatToString(i + 1) + ". " + OptionNames(r)
  }

  function OptionNames(r: ServRow): string
  {
    Upper(Trim(OrEmpty(r.categoria))) + " / " + Upper(Trim(OrEmpty(r.subcategoria_1))) + " / "
      + Upper(Trim(OrEmpty(r.subcategoria_2)))
  }

  /** The option lines, numbered from 1. */
  function OptionLines(opciones: seq<ServRow>): (lines: seq<string>)
    ensures |lines| == |opciones|
    ensures forall i :: 0 <= i < |lines| ==> lines[i] == OptionLine(i, opciones[i])
  {
    seq(|opciones|, i requires 0 <= i < |opciones| => OptionLine(i, opciones[i]))
  }

  function AmbiguousText(mensaje: string, opciones: seq<ServRow>): string
  {
    "Entendido. Encontré varios servicios posibles para \"" + mensaje + "\":\n"
      + Join(OptionLines(opciones), "\n")
      + "\n¿Con cuál seguimos? Puedes responder con el número o el nombre completo."
  }

  function NoMatchText(mensaje: string, cats: seq<string>): string
  {
    "No encontré un servicio que coincida con \"" + mensaje
      + "\". Puedes intentar con otra descripción o elegir una categoría: " + Join(cats, ", ") + "."
  }

  const MaxOptions: nat := 6

  /** `candidatosServ.slice(0, Math.min(candidatosServ.length, 6)).map((c) => c.raw)`. */
  function Options(c: seq<Candidato>): (o: seq<ServRow>)
    ensures |o| == if |c| < MaxOptions then |c| else MaxOptions
    ensures forall i :: 0 <= i < |o| ==> o[i] == c[i].raw
  {
    var t := Take(c, MaxOptions);
    assert forall i :: 0 <= i < |t| ==> t[i] == c[i];
    Map((x: Candidato) => x.raw, t)
  }

  /** The `i`-th line of the list starts with the number `i + 1`. */
  lemma OptionLinesNumbered(opciones: seq<ServRow>, i: nat)
    requires i < |opciones|
    ensures StartsWith(OptionLines(opciones)[i], NatToString(i + 1) + ". ")
  {
    var p := NatToString(i + 1) + ". ";
    assert OptionLines(opciones)[i] == p + OptionNames(opciones[i]);
  }

  /**
   * The handler.  `servicios` is what the first query returned,
   * `preguntas(row)` what the question query returns for the chosen row,
   * and `filas` the category rows of the fallback query.
   */
  function Handle(v: Variant, norm: string -> string, mensaje: string, e: Estado,
                  servicios: Query<ServRow>, preguntas: ServRow -> Query<PreguntaRow>,
                  filas: Option<seq<JsStr>>): Outcome
  {
    if !(e.step == "PASO_2_ESPERANDO_SERVICIO" && |mensaje| > 0) then NotHandled
    else if servicios.error.Some? then
      Failed(400, "Error consultando servicios", servicios.error.value)
    else
      var entrada := norm(mensaje);
      var c := Candidates(norm, entrada, RowsOf(servicios));
      if |c| == 1 then
        var elegido := c[0].raw;
        var pq := preguntas(elegido);
        if pq.error.Some? then Failed(400, "Error consultando preguntas específicas", pq.error.value)
        else
          var arrE := RowsOf(pq);
          Replied(Lead(elegido) + " " + FirstQuestion(arrE), Some(SingleState(v, e, elegido, arrE)))
      else if |c| > 1 then
        var opciones := Options(c);
        Replied(AmbiguousText(mensaje, opciones),
                Some(ServicioAmbiguo(ClienteId(e), OrEmpty(e.clienteNombre), Subdivision(e),
                                     opciones, e.respuestasGlobales)))
      else
        Replied(NoMatchText(mensaje, Categories(filas)), None)
  }

  /** The handler runs only in its own step and for a non-empty message. */
  lemma HandleOnlyInItsStep(v: Variant, norm: string -> string, mensaje: string, e: Estado,
                            servicios: Query<ServRow>, preguntas: ServRow -> Query<PreguntaRow>,
                            filas: Option<seq<JsStr>>)
    ensures Handle(v, norm, mensaje, e, servicios, preguntas, filas).NotHandled?
      <==> e.step != "PASO_2_ESPERANDO_SERVICIO" || mensaje == []
  {
  }

  /** A failed `servicios` query answers 400 and stores nothing. */
  lemma HandleQueryError(v: Variant, norm: string -> string, mensaje: string, e: Estado,
                         servicios: Query<ServRow>, preguntas: ServRow -> Query<PreguntaRow>,
                         filas: Option<seq<JsStr>>)
    requires e.step == "PASO_2_ESPERANDO_SERVICIO" && mensaje != [] && servicios.error.Some?
    ensures Handle(v, norm, mensaje, e, servicios, preguntas, filas)
      == Failed(400, "Error consultando servicios", servicios.error.value)
  {
  }

  /**
   * One candidate: that row is chosen and the session moves to
   * `PASO_3_ESPECIFICAS_PENDIENTES` with its three names; the second patch
   * also stores the fetched questions, `indice` 0 and no specific answers,
   * which the first does not.
   */
  lemma HandleSingle(v: Variant, norm: string -> string, mensaje: string, e: Estado,
                     servicios: Query<ServRow>, preguntas: ServRow -> Query<PreguntaRow>,
                     filas: Option<seq<JsStr>>)
    requires e.step == "PASO_2_ESPERANDO_SERVICIO" && mensaje != [] && servicios.error.None?
    requires |Candidates(norm, norm(mensaje), RowsOf(servicios))| == 1
    requires preguntas(Candidates(norm, norm(mensaje), RowsOf(servicios))[0].raw).error.None?
    ensures var elegido := Candidates(norm, norm(mensaje), RowsOf(servicios))[0].raw;
      var arrE := RowsOf(preguntas(elegido));
      var o := Handle(v, norm, mensaje, e, servicios, preguntas, filas);
      && elegido in RowsOf(servicios)
      && o.Replied? && o.next.Some? && o.next.value.Especificas?
      && o.next.value.servicioCategoria == elegido.categoria
      && o.next.value.subcategoria1 == elegido.subcategoria_1
      && o.next.value.subcategoria2 == elegido.subcategoria_2
      && o.next.value.respuestasGlobales == e.respuestasGlobales
      && (v == V33b <==> o.next.value.preguntas == Some(arrE))
      && (v == V33b <==> o.next.value.indice == Some(0))
      && (v == V33b <==> o.next.value.respuestasEspecificas == Some(map[]))
      && (v == V33 <==> o.next.value.preguntas.None?)
      && StartsWith(o.text, Lead(elegido))
  {
    FirstCandidateIsRow(norm, norm(mensaje), RowsOf(servicios));
  }

  /** The row a candidate stands for is one of the fetched rows. */
  lemma FirstCandidateIsRow(norm: string -> string, q: string, rows: seq<ServRow>)
    requires |Candidates(norm, q, rows)| >= 1
    ensures Candidates(norm, q, rows)[0].raw in rows
  {
    var c := Candidates(norm, q, rows);
    CandidatesSpec(norm, q, rows, Rank(0, 0));
    assert c[0] in c;
    var m := Map(Scored(norm, q), rows);
    var i :| 0 <= i < |m| && m[i] == c[0];
    assert c[0].raw == rows[i];
  }

  /**
   * Several candidates: the first min(n, 6) rows, in candidate order, become
   * the options stored in `PASO_2_ESPERANDO_SERVICIO_AMBIGUO`, and the reply
   * lists them (numbered 1 to k, see `OptionLinesNumbered`).
   */
  lemma HandleSeveral(v: Variant, norm: string -> string, mensaje: string, e: Estado,
                      servicios: Query<ServRow>, preguntas: ServRow -> Query<PreguntaRow>,
                      filas: Option<seq<JsStr>>)
    requires e.step == "PASO_2_ESPERANDO_SERVICIO" && mensaje != [] && servicios.error.None?
    requires |Candidates(norm, norm(mensaje), RowsOf(servicios))| > 1
    ensures var c := Candidates(norm, norm(mensaje), RowsOf(servicios));
      var o := Handle(v, norm, mensaje, e, servicios, preguntas, filas);
      && o.Replied? && o.next.Some? && o.next.value.ServicioAmbiguo?
      && o.next.value.opcionesServicios == Options(c)
      && o.next.value.respuestasGlobales == e.respuestasGlobales
      && o.text == AmbiguousText(mensaje, Options(c))
  {
  }

  /** No candidate: the reply offers each non-empty category once, and nothing is stored. */
  lemma HandleNone(v: Variant, norm: string -> string, mensaje: string, e: Estado,
                   servicios: Query<ServRow>, preguntas: ServRow -> Query<PreguntaRow>,
                   filas: Option<seq<JsStr>>)
    requires e.step == "PASO_2_ESPERANDO_SERVICIO" && mensaje != [] && servicios.error.None?
    requires Candidates(norm, norm(mensaje), RowsOf(servicios)) == []
    ensures Handle(v, norm, mensaje, e, servicios, preguntas, filas)
      == Replied(NoMatchText(mensaje, Categories(filas)), None)
  {
  }

  /** The two patches store different single-match states and behave the same otherwise. */
  lemma VariantsDifferOnlyInSingleState(norm: string -> string, mensaje: string, e: Estado,
                                        servicios: Query<ServRow>, preguntas: ServRow -> Query<PreguntaRow>,
                                        filas: Option<seq<JsStr>>)
    ensures var a := Handle(V33, norm, mensaje, e, servicios, preguntas, filas);
      var b := Handle(V33b, norm, mensaje, e, servicios, preguntas, filas);
      (a != b ==> a.Replied? && b.Replied? && a.text == b.text
                  && a.next.Some? && a.next.value.Especificas? && b.next.Some? && b.next.value.Especificas?
                  && a.next.value.(preguntas := None, indice := None, respuestasEspecificas := None)
                     == b.next.value.(preguntas := None, indice := None, respuestasEspecificas := None))
  {
  }
}
