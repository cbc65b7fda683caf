/**
 * The tool engine of the assistant (src/lib/ai/herramientas.ts): the four
 * tools the language model may call, run over the three cached tables
 * (clients, services and brief questions), and the declaration list handed
 * to the model.
 *
 * A tool's JSON payload is modelled by its structure rather than by its
 * `JSON.stringify` text.  The one random input, `Math.random()` for the
 * ticket number, is a parameter.
 */
module Herramientas {
  import opened Text
  import opened Seqs

  /** The session steps the orchestrator manages (`ChatStep`). */
  datatype ChatStep = INICIAL | RECOLECTANDO_INFORMACION | FINALIZANDO | ERROR

  /** A string-valued JSON field as JavaScript sees it: absent, `null`, or a string. */
  datatype JsStr = Undef | Null | Str(s: string)

  /** JavaScript truthiness of such a field. */
  predicate Falsy(v: JsStr) { v.Undef? || v.Null? || v == Str("") }

  datatype Client = Client(id: string, cliente: string)

  datatype Service = Service(id: string, servicio_final: string, servicio_principal: string, tipo_servicio: string)

  /** A row of the brief-question table; `orden` is `None` when null or missing. */
  datatype Question = Question(id: int, pregunta: string, categoria: JsStr, subcategoria_1: JsStr, orden: Option<int>)

  datatype Tables = Tables(clientes: seq<Client>, servicios: seq<Service>, preguntas: seq<Question>)

  /** A function call from the model: its name and its arguments (`call.args || {}`). */
  datatype Call = Call(name: string, args: map<string, JsStr>)

  function Arg(call: Call, k: string): JsStr
  {
    if k in call.args then call.args[k] else Undef
  }

  /** What a tool answers, one variant per tool. */
  datatype Payload =
    | Clients(found: seq<Client>)
    | ServiceFound(service: Option<Service>)
    | Questions(list: seq<Question>)
    | Saved(ticketId: string)
    | Failure(error: string)

  datatype ToolResult = ToolResult(payload: Payload, step: Option<ChatStep>)

  /** A tool either returns or throws (a JavaScript `TypeError`). */
  datatype Execution = Returned(result: ToolResult) | Threw

  const UnknownToolError: string := "Herramienta desconocida"

  // ---------------------------------------------------------------------------
  // buscarCliente
  // ---------------------------------------------------------------------------

  function ClientMatches(termino: string): Client -> bool
  {
    (c: Client) => Contains(Lower(c.cliente), termino)
  }

  /** The clients whose lower-cased name contains the lower-cased term, in table order. */
  function BuscarCliente(clientes: seq<Client>, term: string): seq<Client>
  {
    Filter(ClientMatches(Lower(term)), clientes)
  }

  lemma BuscarClienteSpec(clientes: seq<Client>, term: string)
    ensures forall c :: c in BuscarCliente(clientes, term) <==>
      c in clientes && Contains(Lower(c.cliente), Lower(term))
    ensures IsSubsequence(BuscarCliente(clientes, term), clientes)
  {
    FilterMembers(ClientMatches(Lower(term)), clientes);
    FilterIsSubsequence(ClientMatches(Lower(term)), clientes);
  }

  /** The search ignores the case of the term. */
  lemma BuscarClienteCaseInsensitive(clientes: seq<Client>, term: string)
    ensures BuscarCliente(clientes, term) == BuscarCliente(clientes, Lower(term))
  {
    LowerIdempotent(term);
  }

  // ---------------------------------------------------------------------------
  // buscarServicio: normalize, tokens, singular, synonyms
  // ---------------------------------------------------------------------------

  /** Canonical decomposition followed by removal of the combining marks, for a lower-case Latin-1 letter. */
  function FoldChar(c: char): char
  {
    if '\U{E0}' <= c <= '\U{E5}' then 'a'
    else if c == '\U{E7}' then 'c'
    else if '\U{E8}' <= c <= '\U{EB}' then 'e'
    else if '\U{EC}' <= c <= '\U{EF}' then 'i'
    else if c == '\U{F1}' then 'n'
    else if '\U{F2}' <= c <= '\U{F6}' then 'o'
    else if '\U{F9}' <= c <= '\U{FC}' then 'u'
    else if c == '\U{FD}' || c == '\U{FF}' then 'y'
    else c
  }

  /** The combining diacritical marks U+0300 to U+036F. */
  predicate IsCombiningMark(c: char) { '\U{300}' <= c <= '\U{36F}' }

  function Fold(s: string): (r: string)
    ensures |r| == |s|
    ensures forall i :: 0 <= i < |s| ==> r[i] == FoldChar(s[i])
  {
    if s == [] then [] else [FoldChar(s[0])] + Fold(s[1..])
  }

  function StripMarks(s: string): (r: string)
    ensures |r| <= |s|
    ensures forall c :: c in r <==> c in s && !IsCombiningMark(c)
  {
    if s == [] then []
    else
      var rest := StripMarks(s[1..]);
      assert forall c :: c in s <==> c == s[0] || c in s[1..];
      (if IsCombiningMark(s[0]) then [] else [s[0]]) + rest
  }

  /** `normalize`: lower case, NFD, combining marks removed. */
  function Normalize(s: string): (r: string)
    ensures forall c :: c in r ==> !IsAsciiUpper(c) && !IsCombiningMark(c)
  {
    var f := Fold(Lower(s));
    assert forall c :: c in f ==> !IsAsciiUpper(c) by {
      forall c | c in f ensures !IsAsciiUpper(c) {
        var i :| 0 <= i < |f| && f[i] == c;
        assert c == FoldChar(LowerChar(s[i]));
      }
    }
    StripMarks(f)
  }

  predicate IsTokenChar(c: char) { IsAsciiLower(c) || IsDigit(c) }

  /** Length of the longest prefix made of `[a-z0-9]`. */
  function RunLength(s: string): (n: nat)
    ensures n <= |s|
    ensures forall i :: 0 <= i < n ==> IsTokenChar(s[i])
    ensures n < |s| ==> !IsTokenChar(s[n])
  {
    if s == [] || !IsTokenChar(s[0]) then 0 else 1 + RunLength(s[1..])
  }

  /** `split(/[^a-z0-9]+/).filter(Boolean)`: the maximal runs of `[a-z0-9]`, left to right. */
  function Tokens(s: string): (ts: seq<string>)
    ensures forall t :: t in ts ==> t != [] && forall i :: 0 <= i < |t| ==> IsTokenChar(t[i])
    decreases |s|
  {
    if s == [] then []
    else if !IsTokenChar(s[0]) then Tokens(s[1..])
    else
      var n := RunLength(s);
      [s[..n]] + Tokens(s[n..])
  }

  /** There are no tokens exactly when no character is in `[a-z0-9]`. */
  lemma {:induction false} TokensEmptyIff(s: string)
    ensures Tokens(s) == [] <==> forall i :: 0 <= i < |s| ==> !IsTokenChar(s[i])
    decreases |s|
  {
    if s != [] && !IsTokenChar(s[0]) {
      TokensEmptyIff(s[1..]);
      assert forall i :: 1 <= i < |s| ==> s[i] == s[1..][i - 1];
    }
  }

  /** `s[i..j]` is a maximal run of `[a-z0-9]`: non-empty, with no token character just outside it. */
  predicate MaximalRun(s: string, i: nat, j: nat)
  {
    && i < j <= |s|
    && (forall m :: i <= m < j ==> IsTokenChar(s[m]))
    && (i == 0 || !IsTokenChar(s[i - 1]))
    && (j == |s| || !IsTokenChar(s[j]))
  }

  /** Where the tokens of `s[i..]` lie in `s`, as start and end positions. */
  function RunSpans(s: string, i: nat): seq<(nat, nat)>
    requires i <= |s|
    decreases |s| - i
  {
    if i == |s| then []
    else if !IsTokenChar(s[i]) then RunSpans(s, i + 1)
    else
      var j := i + RunLength(s[i..]);
      assert s[i..][0] == s[i];
      [(i, j)] + RunSpans(s, j)
  }

  /** The pieces of `s` that the spans delimit, in order. */
  function Slices(s: string, sp: seq<(nat, nat)>): seq<string>
  {
    if sp == [] then []
    else
      var piece := if sp[0].0 <= sp[0].1 <= |s| then s[sp[0].0..sp[0].1] else [];
      [piece] + Slices(s, sp[1..])
  }

  /**
   * `sp` places the tokens `ts` of `s[i..]`: they are the pieces at the
   * spans, each span is a maximal run at or after `i`, the spans go left
   * to right without overlapping, and every maximal run at or after `i` is
   * among them.
   */
  ghost predicate SpansDescribe(s: string, i: nat, sp: seq<(nat, nat)>, ts: seq<string>)
  {
    && ts == Slices(s, sp)
    && (forall k :: 0 <= k < |sp| ==> i <= sp[k].0 && MaximalRun(s, sp[k].0, sp[k].1))
    && (forall k, l :: 0 <= k < l < |sp| ==> sp[k].1 < sp[l].0)
    && (forall a: nat, b: nat :: i <= a && MaximalRun(s, a, b) ==> (a, b) in sp)
  }

  /** A character outside the class starts no run, so skipping it loses none. */
  lemma SkipStep(s: string, i: nat, sp: seq<(nat, nat)>, ts: seq<string>)
    requires i < |s| && !IsTokenChar(s[i]) && SpansDescribe(s, i + 1, sp, ts)
    ensures SpansDescribe(s, i, sp, ts)
  {
    forall a: nat, b: nat | i <= a && MaximalRun(s, a, b)
      ensures (a, b) in sp
    {
      assert IsTokenChar(s[a]);
    }
  }

  /** Two maximal runs are the same run or lie apart. */
  lemma RunsApart(s: string, i: nat, j: nat, a: nat, b: nat)
    requires MaximalRun(s, i, j) && MaximalRun(s, a, b) && i <= a
    ensures (a == i && b == j) || j < a
  {
  }

  /** A maximal run from `i` to `j` goes first, before the runs from `j` on. */
  lemma RunStep(s: string, i: nat, j: nat, rs: seq<(nat, nat)>, tr: seq<string>, sp: seq<(nat, nat)>, ts: seq<string>)
    requires MaximalRun(s, i, j) && SpansDescribe(s, j, rs, tr)
    requires sp == [(i, j)] + rs && ts == [s[i..j]] + tr
    ensures SpansDescribe(s, i, sp, ts)
  {
    assert sp[1..] == rs;
    forall l | 0 <= l < |rs|
      ensures j < rs[l].0
    {
      RunsApart(s, i, j, rs[l].0, rs[l].1);
    }
    forall a: nat, b: nat | i <= a && MaximalRun(s, a, b)
      ensures (a, b) in sp
    {
      RunsApart(s, i, j, a, b);
    }
  }

  /** From a position that does not split a run, a token character starts a maximal run. */
  lemma RunIsMaximal(s: string, i: nat)
    requires i < |s| && IsTokenChar(s[i]) && (i == 0 || !IsTokenChar(s[i - 1]))
    ensures MaximalRun(s, i, i + RunLength(s[i..]))
  {
    var n := RunLength(s[i..]);
    var j := i + n;
    assert s[i..][0] == s[i];
    forall m | i <= m < j
      ensures IsTokenChar(s[m])
    {
      assert s[m] == s[i..][m - i];
    }
    if j < |s| {
      assert s[j] == s[i..][n];
    }
  }

  /** From a position that does not split a run, `RunSpans` places the tokens. */
  lemma {:induction false} SpansFrom(s: string, i: nat)
    requires i <= |s|
    requires i == 0 || i == |s| || !IsTokenChar(s[i - 1]) || !IsTokenChar(s[i])
    ensures SpansDescribe(s, i, RunSpans(s, i), Tokens(s[i..]))
    decreases |s| - i, 1
  {
    if i == |s| {
      assert s[i..] == [];
    } else if !IsTokenChar(s[i]) {
      SpansSkip(s, i);
    } else {
      SpansRun(s, i);
    }
  }

  lemma {:induction false} SpansSkip(s: string, i: nat)
    requires i < |s| && !IsTokenChar(s[i])
    ensures SpansDescribe(s, i, RunSpans(s, i), Tokens(s[i..]))
    decreases |s| - i, 0
  {
    SpansFrom(s, i + 1);
    TokensSkip(s, i);
    SkipStep(s, i, RunSpans(s, i + 1), Tokens(s[i + 1..]));
  }

  lemma {:induction false} SpansRun(s: string, i: nat)
    requires i < |s| && IsTokenChar(s[i]) && (i == 0 || !IsTokenChar(s[i - 1]))
    ensures SpansDescribe(s, i, RunSpans(s, i), Tokens(s[i..]))
    decreases |s| - i, 0
  {
    var j := i + RunLength(s[i..]);
    TokenRunEnd(s, i);
    SpansFrom(s, j);
    RunFirst(s, i, j);
  }

  /** A run ends after its start, at the end of `s` or before a character outside the class. */
  lemma TokenRunEnd(s: string, i: nat)
    requires i < |s| && IsTokenChar(s[i]) && (i == 0 || !IsTokenChar(s[i - 1]))
    ensures var j := i + RunLength(s[i..]); i < j <= |s| && (j == |s| || !IsTokenChar(s[j]))
  {
    RunIsMaximal(s, i);
  }

  /** The run at `i` goes in front of the spans and tokens from its end on. */
  lemma RunFirst(s: string, i: nat, j: nat)
    requires i < |s| && IsTokenChar(s[i]) && (i == 0 || !IsTokenChar(s[i - 1]))
    requires j == i + RunLength(s[i..]) && j <= |s| && SpansDescribe(s, j, RunSpans(s, j), Tokens(s[j..]))
    ensures SpansDescribe(s, i, RunSpans(s, i), Tokens(s[i..]))
  {
    RunIsMaximal(s, i);
    TokensRun(s, i);
    RunSpansRun(s, i);
    RunStep(s, i, j, RunSpans(s, j), Tokens(s[j..]), RunSpans(s, i), Tokens(s[i..]));
  }

  /** At a token character, `RunSpans` records the run and goes on after it. */
  lemma RunSpansRun(s: string, i: nat)
    requires i < |s| && IsTokenChar(s[i])
    ensures var j := i + RunLength(s[i..]); RunSpans(s, i) == [(i, j)] + RunSpans(s, j)
  {
  }

  /** A character outside the class is dropped. */
  lemma TokensSkip(s: string, i: nat)
    requires i < |s| && !IsTokenChar(s[i])
    ensures Tokens(s[i..]) == Tokens(s[i + 1..])
  {
    var t := s[i..];
    assert t[0] == s[i] && t[1..] == s[i + 1..];
    assert Tokens(t) == Tokens(t[1..]);
  }

  /** A run of the class is one token. */
  lemma TokensRun(s: string, i: nat)
    requires i < |s| && IsTokenChar(s[i])
    ensures var j := i + RunLength(s[i..]); Tokens(s[i..]) == [s[i..j]] + Tokens(s[j..])
  {
    var t := s[i..];
    var n := RunLength(t);
    assert t[0] == s[i];
    assert Tokens(t) == [t[..n]] + Tokens(t[n..]);
    assert t[..n] == s[i..i + n];
    assert t[n..] == s[i + n..];
  }

  /**
   * `split(/[^a-z0-9]+/).filter(Boolean)` yields exactly the maximal runs of
   * `[a-z0-9]`, in the order they occur: each token is such a run, the runs
   * do not overlap and go left to right, and no run is missed.
   */
  lemma TokensAreMaximalRuns(s: string)
    ensures var sp := RunSpans(s, 0);
      && Tokens(s) == Slices(s, sp)
      && (forall k :: 0 <= k < |sp| ==> MaximalRun(s, sp[k].0, sp[k].1))
      && (forall k, l :: 0 <= k < l < |sp| ==> sp[k].1 < sp[l].0)
      && (forall a: nat, b: nat :: MaximalRun(s, a, b) ==> (a, b) in sp)
  {
    SpansFrom(s, 0);
    assert s[0..] == s;
  }

  /** `singular`: drops one trailing `s`. */
  function Singular(t: string): (r: string)
    ensures r == t || (t == r + "s")
  {
    if EndsWith(t, "s") then t[..|t| - 1] else t
  }

  const Synonyms: map<string, seq<string>> := map[
    "flyer" := ["flyer", "volante"],
    "volante" := ["volante", "flyer"],
    "folletos" := ["folleto", "brochure"],
    "folleto" := ["folleto", "brochure"],
    "diptico" := ["diptico"],
    "triptico" := ["triptico"],
    "banner" := ["banner", "lona"],
    "lonas" := ["lona", "banner"]
  ]

  /**
   * The text of `Object` as `includes` converts it.  The synonym table is a
   * plain object literal, so the lookup `map['constructor']` finds the
   * inherited `Object` constructor, which `flatMap` adds as a variant.
   */
  const ObjectSource: string := "function " + ['O'] + "bject() { [native code] }"

  /** `expandSynonyms`: the variants searched for one token. */
  function ExpandSynonyms(token: string): seq<string>
  {
    var base := Singular(token);
    if base in Synonyms then Synonyms[base]
    else if base == "constructor" then [ObjectSource]
    else [base]
  }

  /** `String(args.terminoBusqueda || '')`. */
  function TermText(term: JsStr): string
  {
    if term.Str? then term.s else ""
  }

  function Variants(term: JsStr): seq<string>
  {
    FlatMap(ExpandSynonyms, Tokens(Normalize(TermText(term))))
  }

  function ServiceText(s: Service): string
  {
    s.servicio_final + " " + s.servicio_principal + " " + s.tipo_servicio
  }

  predicate Hits(variants: seq<string>, s: Service)
  {
    exists v :: v in variants && Contains(Normalize(ServiceText(s)), v)
  }

  function ServiceHit(variants: seq<string>): Service -> bool
  {
    (s: Service) => Hits(variants, s)
  }

  /** The first service, in table order, that some variant hits. */
  function FirstHit(servicios: seq<Service>, vs: seq<string>): (r: Option<Service>)
    ensures r.Some? ==> exists i :: (0 <= i < |servicios| && servicios[i] == r.value
      && Hits(vs, servicios[i]) && forall j :: 0 <= j < i ==> !Hits(vs, servicios[j]))
    ensures r.None? <==> forall j :: 0 <= j < |servicios| ==> !Hits(vs, servicios[j])
  {
    var i := FindIndex(ServiceHit(vs), servicios);
    assert forall j :: 0 <= j < i ==> !Hits(vs, servicios[j]) by {
      forall j | 0 <= j < i ensures !Hits(vs, servicios[j]) { assert !ServiceHit(vs)(servicios[j]); }
    }
    if i < |servicios| then
      assert ServiceHit(vs)(servicios[i]);
      Some(servicios[i])
    else None
  }

  /** A first service some variant hits is the one found. */
  lemma FirstHitHead(servicios: seq<Service>, vs: seq<string>)
    requires servicios != [] && Hits(vs, servicios[0])
    ensures FirstHit(servicios, vs) == Some(servicios[0])
  {
    assert ServiceHit(vs)(servicios[0]);
  }

  /** `buscarServicio`: the first service, in table order, whose normalized text contains some variant of the term. */
  function BuscarServicio(servicios: seq<Service>, term: JsStr): (r: Option<Service>)
    ensures r.Some? ==> exists i :: (0 <= i < |servicios| && servicios[i] == r.value
      && Hits(Variants(term), servicios[i])
      && forall j :: 0 <= j < i ==> !Hits(Variants(term), servicios[j]))
    ensures r.None? <==> forall j :: 0 <= j < |servicios| ==> !Hits(Variants(term), servicios[j])
  {
    FirstHit(servicios, Variants(term))
  }

  /** A term without any `[a-z0-9]` character after normalization finds nothing. */
  lemma NoTokenNoService(servicios: seq<Service>, term: JsStr)
    requires forall c :: c in Normalize(TermText(term)) ==> !IsTokenChar(c)
    ensures BuscarServicio(servicios, term) == None
  {
    var n := Normalize(TermText(term));
    assert forall i :: 0 <= i < |n| ==> !IsTokenChar(n[i]) by {
      forall i | 0 <= i < |n| ensures !IsTokenChar(n[i]) { assert n[i] in n; }
    }
    TokensEmptyIff(n);
    assert Variants(term) == [];
  }

  lemma FlyersExpand()
    ensures ExpandSynonyms("flyers") == ["flyer", "volante"]
    ensures ExpandSynonyms("flyer") == ["flyer", "volante"]
  {
    assert Singular("flyers") == "flyer";
    assert Singular("flyer") == "flyer";
    assert "flyer" in Synonyms;
  }

  /**
   * The key `lonas` is looked up only for the token `lonass`, since every
   * token loses one trailing `s` first; `lonas` itself expands to `lona`.
   */
  lemma LonasKey(token: string)
    ensures Singular(token) == "lonas" <==> token == "lonass"
    ensures ExpandSynonyms("lonas") == ["lona"]
  {
    assert Singular("lonass") == "lonas";
    assert Singular("lonas") == "lona";
    assert "lona" !in Synonyms;
    assert "lona" != "constructor";
  }

  /** `Normalize` never yields the text of `Object` (it has an upper-case `O`). */
  lemma ObjectSourceNeverFound(target: string)
    ensures !Contains(Normalize(target), ObjectSource)
  {
    assert ObjectSource[9] == 'O';
    NoUpperNoOccurrence(Normalize(target), ObjectSource, 9);
  }

  /** A text without upper-case ASCII letters holds no text that has one. */
  lemma NoUpperNoOccurrence(n: string, t: string, k: nat)
    requires forall c :: c in n ==> !IsAsciiUpper(c)
    requires k < |t| && IsAsciiUpper(t[k])
    ensures !Contains(n, t)
  {
    forall i | 0 <= i <= |n| - |t| ensures !OccursAt(n, t, i) {
      assert n[i + k] in n;
      assert n[i..i + |t|][k] == n[i + k];
    }
  }

  lemma NormalizeS()
    ensures Normalize("s") == "s"
  {
    assert Lower("s") == "s";
    assert Fold("s") == "s";
    assert StripMarks("s") == "s";
  }

  lemma VariantsS()
    ensures Variants(Str("s")) == [""]
  {
    assert TermText(Str("s")) == "s";
    NormalizeS();
    TokensS();
    ExpandS();
    FlatMapSingle(ExpandSynonyms, "s");
  }

  lemma ExpandS()
    ensures ExpandSynonyms("s") == [""]
  {
    assert Singular("s") == "";
    assert "" !in Synonyms;
  }

  lemma TokensS()
    ensures Tokens("s") == ["s"]
  {
    assert IsTokenChar('s');
    assert RunLength("s") == 1;
    assert "s"[..1] == "s" && "s"[1..] == "";
  }

  /** A bare `s` becomes the empty variant, which every service text contains. */
  lemma BareSMatchesFirst(servicios: seq<Service>)
    ensures BuscarServicio(servicios, Str("s")) == if servicios == [] then None else Some(servicios[0])
  {
    VariantsS();
    assert BuscarServicio(servicios, Str("s")) == FirstHit(servicios, [""]);
    if servicios != [] {
      ContainsEmpty(Normalize(ServiceText(servicios[0])));
      assert Hits([""], servicios[0]);
      FirstHitHead(servicios, [""]);
    }
  }

  // ---------------------------------------------------------------------------
  // obtenerPreguntasDelBrief
  // ---------------------------------------------------------------------------

  predicate IsGeneral(q: Question) { Falsy(q.categoria) }

  function IsGeneralQ(): Question -> bool { (q: Question) => IsGeneral(q) }

  function IsSpecificQ(sp: JsStr, ts: JsStr): Question -> bool
  {
    (q: Question) => q.categoria == sp && q.subcategoria_1 == ts
  }

  predicate DistinctIds(s: seq<Question>)
  {
    forall i, j :: 0 <= i < j < |s| ==> s[i].id != s[j].id
  }

  function SameId(id: int): Question -> bool { (q: Question) => q.id == id }

  /** `map.set(q.id, q)`: overwrite the entry with that id in place, or append it. */
  function PutById(acc: seq<Question>, q: Question): (r: seq<Question>)
  {
    var i := FindIndex(SameId(q.id), acc);
    if i < |acc| then acc[i := q] else acc + [q]
  }

  /** `new Map(entries.map(p => [p.id, p])).values()`. */
  function MapById(es: seq<Question>): seq<Question>
    decreases |es|
  {
    if es == [] then [] else PutById(MapById(es[..|es| - 1]), es[|es| - 1])
  }

  lemma PutByIdSpec(acc: seq<Question>, e: Question)
    requires DistinctIds(acc)
    ensures DistinctIds(PutById(acc, e))
    ensures e in PutById(acc, e)
    ensures forall q :: q in PutById(acc, e) ==> q == e || (q in acc && q.id != e.id)
    ensures forall q :: q in acc && q.id != e.id ==> q in PutById(acc, e)
  {
    var r := PutById(acc, e);
    var i := FindIndex(SameId(e.id), acc);
    if i < |acc| {
      assert acc[i].id == e.id;
      assert r == acc[i := e];
      assert r[i] == e;
      forall q | q in r ensures q == e || (q in acc && q.id != e.id) {
        var m :| 0 <= m < |r| && r[m] == q;
        if m != i { assert q == acc[m]; }
      }
      forall q | q in acc && q.id != e.id ensures q in r {
        var m :| 0 <= m < |acc| && acc[m] == q;
        assert m != i && r[m] == q;
      }
    } else {
      assert forall m :: 0 <= m < |acc| ==> acc[m].id != e.id;
      assert r == acc + [e];
      assert r[|acc|] == e;
    }
  }

  lemma {:induction false} MapByIdIdsDistinct(es: seq<Question>)
    ensures DistinctIds(MapById(es))
    decreases |es|
  {
    if es != [] {
      MapByIdIdsDistinct(es[..|es| - 1]);
      PutByIdSpec(MapById(es[..|es| - 1]), es[|es| - 1]);
    }
  }

  lemma {:induction false} MapByIdFromEntries(es: seq<Question>)
    ensures forall q :: q in MapById(es) ==> q in es
    decreases |es|
  {
    if es != [] {
      var init, e := es[..|es| - 1], es[|es| - 1];
      MapByIdFromEntries(init);
      MapByIdIdsDistinct(init);
      PutByIdSpec(MapById(init), e);
      assert forall q :: q in init ==> q in es;
    }
  }

  lemma {:induction false} MapByIdCoversIds(es: seq<Question>)
    ensures forall e :: e in es ==> exists q :: q in MapById(es) && q.id == e.id
    decreases |es|
  {
    if es != [] {
      var init, e := es[..|es| - 1], es[|es| - 1];
      assert es == init + [e];
      MapByIdCoversIds(init);
      MapByIdIdsDistinct(init);
      var acc := MapById(init);
      var r := MapById(es);
      PutByIdSpec(acc, e);
      forall x | x in es ensures exists q :: q in r && q.id == x.id {
        if x != e {
          assert x in init;
          var q :| q in acc && q.id == x.id;
          if q.id != e.id { assert q in r; }
        }
      }
    }
  }

  /** The value stored for an id is the last entry with that id. */
  lemma {:induction false} MapByIdLastValue(es: seq<Question>)
    ensures forall q, k :: q in MapById(es) && 0 <= k < |es| && es[k].id == q.id ==> q in es[k..]
    decreases |es|
  {
    if es != [] {
      var init, e := es[..|es| - 1], es[|es| - 1];
      MapByIdLastValue(init);
      MapByIdIdsDistinct(init);
      var acc := MapById(init);
      var r := MapById(es);
      PutByIdSpec(acc, e);
      forall q, k | q in r && 0 <= k < |es| && es[k].id == q.id ensures q in es[k..] {
        if q == e {
          assert es[k..][|es| - 1 - k] == q;
        } else {
          assert k < |init| && init[k] == es[k];
          assert q in init[k..];
          var m :| 0 <= m < |init[k..]| && init[k..][m] == q;
          assert es[k..][m] == q;
        }
      }
    }
  }

  lemma MapByIdSpec(es: seq<Question>)
    ensures DistinctIds(MapById(es))
    ensures forall q :: q in MapById(es) ==> q in es
    ensures forall e :: e in es ==> exists q :: q in MapById(es) && q.id == e.id
    ensures forall q, k :: 0 <= k < |es| && q in MapById(es) && es[k].id == q.id ==> q in es[k..]
  {
    MapByIdIdsDistinct(es);
    MapByIdFromEntries(es);
    MapByIdCoversIds(es);
    MapByIdLastValue(es);
  }

  /** Putting back an entry the map already holds changes nothing. */
  lemma PutByIdPresent(acc: seq<Question>, e: Question)
    requires DistinctIds(acc) && e in acc
    ensures PutById(acc, e) == acc
  {
    var i := FindIndex(SameId(e.id), acc);
    var m :| 0 <= m < |acc| && acc[m] == e;
    assert i <= m;
    assert acc[i].id == e.id;
    assert i == m;
  }

  lemma PutByIdAbsent(acc: seq<Question>, e: Question)
    requires forall y :: y in acc ==> y.id != e.id
    ensures PutById(acc, e) == acc + [e]
  {
    forall m | 0 <= m < |acc| ensures !SameId(e.id)(acc[m]) { assert acc[m] in acc; }
  }

  /** Without repeated ids the map keeps the list as it is. */
  lemma {:induction false} MapByIdDistinct(es: seq<Question>)
    requires DistinctIds(es)
    ensures MapById(es) == es
    decreases |es|
  {
    if es != [] {
      var init, e := es[..|es| - 1], es[|es| - 1];
      MapByIdDistinct(init);
      forall y | y in init ensures y.id != e.id {
        var m :| 0 <= m < |init| && init[m] == y;
        assert es[m] == y;
      }
      PutByIdAbsent(init, e);
      assert es == init + [e];
    }
  }

  lemma {:induction false} FilterDistinctIds(p: Question -> bool, s: seq<Question>)
    requires DistinctIds(s)
    ensures DistinctIds(Filter(p, s))
    decreases |s|
  {
    if s != [] {
      FilterDistinctIds(p, s[1..]);
      FilterMembers(p, s[1..]);
      var rest := Filter(p, s[1..]);
      forall m | 0 <= m < |rest| ensures rest[m].id != s[0].id {
        assert rest[m] in s[1..];
      }
    }
  }

  function NotIn(g: seq<Question>): Question -> bool { (q: Question) => q !in g }

  /**
   * With distinct ids, and one record per id across both lists, the merged
   * map is the first list followed by the entries of the second that are
   * not already in the first.
   */
  lemma {:induction false} MergeDistinct(g: seq<Question>, e: seq<Question>)
    requires DistinctIds(g) && DistinctIds(e)
    requires forall x, y :: x in g && y in e && x.id == y.id ==> x == y
    ensures MapById(g + e) == g + Filter(NotIn(g), e)
    decreases |e|
  {
    if e == [] {
      assert g + e == g;
      MapByIdDistinct(g);
    } else {
      var init, x := e[..|e| - 1], e[|e| - 1];
      assert e == init + [x];
      assert DistinctIds(init) by {
        forall i, j | 0 <= i < j < |init| ensures init[i].id != init[j].id {
          assert init[i] == e[i] && init[j] == e[j];
        }
      }
      assert forall y :: y in init ==> y in e;
      MergeDistinct(g, init);
      MergeGrow(g, init, x);
    }
  }

  lemma MergeGrow(g: seq<Question>, init: seq<Question>, x: Question)
    requires MapById(g + init) == g + Filter(NotIn(g), init)
    requires DistinctIds(init + [x])
    requires forall y :: y in g && y.id == x.id ==> y == x
    ensures MapById(g + (init + [x])) == g + Filter(NotIn(g), init + [x])
  {
    var acc := g + Filter(NotIn(g), init);
    assert g + (init + [x]) == (g + init) + [x];
    MapByIdSnoc(g + init, x);
    assert DistinctIds(acc) by {
      MapByIdIdsDistinct(g + init);
    }
    MergeStep(g, init, x, acc);
    FilterConcat(NotIn(g), init, [x]);
    assert g + Filter(NotIn(g), init + [x]) == acc + Filter(NotIn(g), [x]);
  }

  lemma MapByIdSnoc(es: seq<Question>, x: Question)
    ensures MapById(es + [x]) == PutById(MapById(es), x)
  {
    assert (es + [x])[..|es|] == es;
  }

  lemma MergeStep(g: seq<Question>, init: seq<Question>, x: Question, acc: seq<Question>)
    requires acc == g + Filter(NotIn(g), init) && DistinctIds(acc)
    requires DistinctIds(init + [x])
    requires forall y :: y in g && y.id == x.id ==> y == x
    ensures PutById(acc, x) == acc + Filter(NotIn(g), [x])
  {
    if x in g {
      assert x in acc;
      PutByIdPresent(acc, x);
      assert Filter(NotIn(g), [x]) == [];
    } else {
      FilterMembers(NotIn(g), init);
      forall y | y in acc ensures y.id != x.id {
        if y !in g {
          var j :| 0 <= j < |init| && init[j] == y;
          assert (init + [x])[j] == y && (init + [x])[|init|] == x;
        }
      }
      PutByIdAbsent(acc, x);
      assert Filter(NotIn(g), [x]) == [x];
    }
  }

  /** The sort key `orden || 999`: a zero or missing order sorts as 999. */
  function OrdenKey(q: Question): int
  {
    match q.orden
    case None => 999
    case Some(n) => if n == 0 then 999 else n
  }

  function OrdenRank(q: Question): Rank { Rank(OrdenKey(q), 0) }

  function Generales(qs: seq<Question>): seq<Question> { Filter(IsGeneralQ(), qs) }

  function Especificas(qs: seq<Question>, sp: JsStr, ts: JsStr): seq<Question>
  {
    Filter(IsSpecificQ(sp, ts), qs)
  }

  /** The brief: general and matching specific questions, one per id, by `orden`. */
  function PreguntasDelBrief(qs: seq<Question>, sp: JsStr, ts: JsStr): seq<Question>
  {
    SortBy(OrdenRank, MapById(Generales(qs) + Especificas(qs, sp, ts)))
  }

  lemma {:induction false} InsertDistinct(x: Question, s: seq<Question>)
    requires DistinctIds(s) && forall y :: y in s ==> y.id != x.id
    ensures DistinctIds(Insert(OrdenRank, x, s))
    decreases |s|
  {
    if s != [] && RankLe(OrdenRank(s[0]), OrdenRank(x)) {
      var t := Insert(OrdenRank, x, s[1..]);
      forall i, j | 0 <= i < j < |s[1..]| ensures s[1..][i].id != s[1..][j].id {
        assert s[1..][i] == s[i + 1] && s[1..][j] == s[j + 1];
      }
      InsertDistinct(x, s[1..]);
      forall m | 0 <= m < |t| ensures t[m].id != s[0].id {
        assert t[m] in multiset(t);
        if t[m] != x {
          var a :| 0 <= a < |s[1..]| && s[1..][a] == t[m];
          assert s[a + 1] == t[m];
        }
      }
      assert Insert(OrdenRank, x, s) == [s[0]] + t;
    } else if s != [] {
      assert Insert(OrdenRank, x, s) == [x] + s;
    }
  }

  lemma {:induction false} SortDistinct(s: seq<Question>)
    requires DistinctIds(s)
    ensures DistinctIds(SortBy(OrdenRank, s))
    decreases |s|
  {
    if s != [] {
      var init, last := s[..|s| - 1], s[|s| - 1];
      forall i, j | 0 <= i < j < |init| ensures init[i].id != init[j].id {
        assert init[i] == s[i] && init[j] == s[j];
      }
      SortDistinct(init);
      var t := SortBy(OrdenRank, init);
      forall y | y in t ensures y.id != last.id {
        assert y in multiset(t);
        var a :| 0 <= a < |init| && init[a] == y;
        assert s[a] == y;
      }
      InsertDistinct(last, t);
    }
  }

  lemma SameMembers(r: seq<Question>, m: seq<Question>)
    requires multiset(r) == multiset(m)
    ensures forall q :: q in r <==> q in m
  {
    forall q ensures q in r <==> q in m {
      assert q in r <==> q in multiset(r);
      assert q in m <==> q in multiset(m);
    }
  }

  /** What holds for any table: distinct ids, ascending `orden || 999`, one entry per id present. */
  lemma BriefShape(qs: seq<Question>, sp: JsStr, ts: JsStr)
    ensures DistinctIds(PreguntasDelBrief(qs, sp, ts))
    ensures SortedBy(OrdenRank, PreguntasDelBrief(qs, sp, ts))
    ensures forall q :: q in qs && (IsGeneral(q) || (q.categoria == sp && q.subcategoria_1 == ts)) ==>
      exists r :: r in PreguntasDelBrief(qs, sp, ts) && r.id == q.id
  {
    var es := Generales(qs) + Especificas(qs, sp, ts);
    var m := MapById(es);
    var r := PreguntasDelBrief(qs, sp, ts);
    MapByIdSpec(es);
    SortBySorted(OrdenRank, m);
    SortDistinct(m);
    SameMembers(r, m);
    FilterMembers(IsGeneralQ(), qs);
    FilterMembers(IsSpecificQ(sp, ts), qs);
    forall q | q in qs && (IsGeneral(q) || (q.categoria == sp && q.subcategoria_1 == ts))
      ensures exists x :: x in r && x.id == q.id
    {
      assert q in es;
    }
  }

  /**
   * For a table with distinct ids the brief holds exactly the general
   * questions and the questions matching both arguments, and questions of
   * equal `orden || 999` keep their order, the general ones first.
   */
  lemma BriefContents(qs: seq<Question>, sp: JsStr, ts: JsStr, k: int)
    requires DistinctIds(qs)
    ensures forall q :: q in PreguntasDelBrief(qs, sp, ts) <==>
      q in qs && (IsGeneral(q) || (q.categoria == sp && q.subcategoria_1 == ts))
    ensures OfRank(OrdenRank, Rank(k, 0), PreguntasDelBrief(qs, sp, ts)) ==
      OfRank(OrdenRank, Rank(k, 0), Generales(qs) + Filter(NotIn(Generales(qs)), Especificas(qs, sp, ts)))
  {
    var g, e := Generales(qs), Especificas(qs, sp, ts);
    FilterDistinctIds(IsGeneralQ(), qs);
    FilterDistinctIds(IsSpecificQ(sp, ts), qs);
    FilterMembers(IsGeneralQ(), qs);
    FilterMembers(IsSpecificQ(sp, ts), qs);
    forall x, y | x in g && y in e && x.id == y.id ensures x == y {
      var a :| 0 <= a < |qs| && qs[a] == x;
      var b :| 0 <= b < |qs| && qs[b] == y;
    }
    MergeDistinct(g, e);
    var m := g + Filter(NotIn(g), e);
    var r := PreguntasDelBrief(qs, sp, ts);
    SameMembers(r, m);
    FilterMembers(NotIn(g), e);
    SortByStable(OrdenRank, Rank(k, 0), m);
  }

  // ---------------------------------------------------------------------------
  // guardarSolicitudEnSupabase
  // ---------------------------------------------------------------------------

  /** `S-${Math.floor(Math.random() * 10000)}` for a draw `rnd` in [0, 1). */
  function TicketId(rnd: real): (t: string)
    requires 0.0 <= rnd < 1.0
  {
    "S-" + NatToString((rnd * 10000.0).Floor as nat)
  }

  lemma TicketIdShape(rnd: real)
    requires 0.0 <= rnd < 1.0
    ensures exists n: nat :: n <= 9999 && TicketId(rnd) == "S-" + NatToString(n)
    ensures 3 <= |TicketId(rnd)| <= 6 && TicketId(rnd)[..2] == "S-"
    ensures forall i :: 2 <= i < |TicketId(rnd)| ==> IsDigit(TicketId(rnd)[i])
  {
    var n := (rnd * 10000.0).Floor;
    assert 0 <= n <= 9999;
    NatToStringLength(n as nat, 4);
    var d := NatToString(n as nat);
    assert TicketId(rnd) == "S-" + d;
    assert forall i :: 2 <= i < |TicketId(rnd)| ==> TicketId(rnd)[i] == d[i - 2];
  }

  // ---------------------------------------------------------------------------
  // ejecutarHerramienta and getHerramientasDisponibles
  // ---------------------------------------------------------------------------

  /** `ejecutarHerramienta`: the switch over the tool name. */
  function Ejecutar(t: Tables, call: Call, rnd: real): (x: Execution)
    requires 0.0 <= rnd < 1.0
    ensures x.Threw? <==> call.name == "buscarCliente" && !Arg(call, "terminoBusqueda").Str?
    ensures x.Returned? && x.result.step.Some? ==>
      x.result.step == Some(FINALIZANDO) || x.result.step == Some(ERROR)
    ensures x.Returned? && x.result.step == Some(FINALIZANDO) <==> call.name == "guardarSolicitudEnSupabase"
  {
    if call.name == "buscarCliente" then
      var a := Arg(call, "terminoBusqueda");
      // `(undefined as string).toLowerCase()` throws.
      if a.Str? then Returned(ToolResult(Clients(BuscarCliente(t.clientes, a.s)), None)) else Threw
    else if call.name == "buscarServicio" then
      Returned(ToolResult(ServiceFound(BuscarServicio(t.servicios, Arg(call, "terminoBusqueda"))), None))
    else if call.name == "obtenerPreguntasDelBrief" then
      var qs := PreguntasDelBrief(t.preguntas, Arg(call, "servicio_principal"), Arg(call, "tipo_servicio"));
      Returned(ToolResult(Questions(qs), None))
    else if call.name == "guardarSolicitudEnSupabase" then
      Returned(ToolResult(Saved(TicketId(rnd)), Some(FINALIZANDO)))
    else
      Returned(ToolResult(Failure(UnknownToolError), Some(ERROR)))
  }

  /** A tool declaration: its name and its required parameters. */
  datatype Declaration = Declaration(name: string, required: seq<string>)

  /** `getHerramientasDisponibles`: the declarations in their table order. */
  function HerramientasDisponibles(): seq<Declaration>
  {
    [ Declaration("buscarCliente", ["terminoBusqueda"]),
      Declaration("buscarServicio", ["terminoBusqueda"]),
      Declaration("obtenerPreguntasDelBrief", ["servicio_principal", "tipo_servicio"]),
      Declaration("guardarSolicitudEnSupabase", ["clienteId", "servicioId", "respuestasBrief"]) ]
  }

  /**
   * Every declared tool is known to the switch: called with its required
   * arguments as strings, it returns without the unknown-tool error, and
   * only the save tool sets a step.
   */
  lemma DeclaredToolsRun(t: Tables, call: Call, rnd: real)
    requires 0.0 <= rnd < 1.0
    requires exists d :: (d in HerramientasDisponibles() && d.name == call.name
      && forall k :: k in d.required ==> Arg(call, k).Str?)
    ensures Ejecutar(t, call, rnd).Returned?
    ensures !Ejecutar(t, call, rnd).result.payload.Failure?
    ensures Ejecutar(t, call, rnd).result.step.None? <==> call.name != "guardarSolicitudEnSupabase"
  {
    var d :| d in HerramientasDisponibles() && d.name == call.name
      && forall k :: k in d.required ==> Arg(call, k).Str?;
    if call.name == "buscarCliente" {
      assert "terminoBusqueda" in d.required;
    }
  }

  /** Any other name gets the unknown-tool error and step ERROR. */
  lemma UnknownToolIsError(t: Tables, call: Call, rnd: real)
    requires 0.0 <= rnd < 1.0
    requires forall d :: d in HerramientasDisponibles() ==> d.name != call.name
    ensures Ejecutar(t, call, rnd) == Returned(ToolResult(Failure(UnknownToolError), Some(ERROR)))
  {
    assert HerramientasDisponibles()[0].name == "buscarCliente";
    assert HerramientasDisponibles()[1].name == "buscarServicio";
    assert HerramientasDisponibles()[2].name == "obtenerPreguntasDelBrief";
    assert HerramientasDisponibles()[3].name == "guardarSolicitudEnSupabase";
  }
}
