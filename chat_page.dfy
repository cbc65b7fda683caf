/**
 * src/app/app/page.tsx: the chat page.  `handleSendMessage` appends the
 * user's message and a placeholder answer, sends the history with the
 * confirmation flag, and fills the placeholder from the streamed reply; an
 * effect watches the messages for a ticket number (`S-<digits>`) in the
 * latest answer and then rebuilds the request summary that
 * `extractSummaryData` reads off the user's messages.
 *
 * The regular expressions are modelled as leftmost-match searches over the
 * text (`FirstWhere`); the six extraction patterns with nested optional
 * groups and lazy runs are the parameter `rx` (see `Rx`).  Message ids and
 * what the chat endpoint answers are parameters.
 */
module ChatPage {
  import opened Text
  import opened Seqs
  import opened Db
  import Pattern

  datatype Role = User | Assistant

  /** A chat message (its timestamp is not modelled). */
  datatype Message = Message(id: string, content: string, role: Role)

  /** An entry of the history sent to the chat endpoint: role and content only. */
  datatype Turn = Turn(role: Role, content: string)

  const DefaultModel: string := "gemini-2.5-flash"
  const Thinking: string := "\U{1F916} Pensando con La Colectiva\U{2026} \U{2728}"
  const Processing: string := "Procesando tu solicitud..."
  const NoRead: string := "No se pudo leer la respuesta"
  const TimedOut: string := "Tiempo de espera agotado"
  const NetworkError: string := "Error de red"

  // ---------------------------------------------------------------------------
  // Leftmost search
  // ---------------------------------------------------------------------------

  /** The first position in `from..to` where `p` holds: where `String.prototype.match` finds its match. */
  function FirstWhere(p: nat -> bool, from: nat, to: nat): (r: Option<nat>)
    decreases to - from
    ensures r.Some? ==> from <= r.value <= to && p(r.value)
    ensures r.Some? ==> forall k :: from <= k < r.value ==> !p(k)
    ensures r.None? ==> forall k :: from <= k <= to ==> !p(k)
  {
    if from > to then None
    else if p(from) then Some(from)
    else FirstWhere(p, from + 1, to)
  }

  /** `w` occurs at `i` up to case, as a literal of a `/i` pattern matches. */
  predicate OccursAtIgnoringCase(s: string, w: string, i: nat)
  {
    i + |w| <= |s| && forall k :: 0 <= k < |w| ==> LowerChar(s[i + k]) == LowerChar(w[k])
  }

  // ---------------------------------------------------------------------------
  // The confirmation handshake
  // ---------------------------------------------------------------------------

  /**
   * The position of the latest assistant message
   * (`[...messages].reverse().find(m => m.role === 'assistant')`).
   */
  function LastAssistant(msgs: seq<Message>): (r: Option<nat>)
    ensures r.Some? ==> r.value < |msgs| && msgs[r.value].role == Assistant
    ensures r.Some? ==> forall j :: r.value < j < |msgs| ==> msgs[j].role != Assistant
    ensures r.None? ==> forall j :: 0 <= j < |msgs| ==> msgs[j].role != Assistant
  {
    if msgs == [] then None
    else if msgs[|msgs| - 1].role == Assistant then Some(|msgs| - 1)
    else LastAssistant(msgs[..|msgs| - 1])
  }

  /** `lastAssistant?.content || ''`. */
  function LastAssistantContent(msgs: seq<Message>): string
  {
    var k := LastAssistant(msgs);
    if k.None? then "" else msgs[k.value].content
  }

  const ConfirmPhrase: string := "es esto correcto"

  /**
   * `/(¿\s*es esto correcto\??)/i` matches at `i`.  The greedy run of white
   * space is what a backtracking engine keeps too, because the phrase starts
   * with a letter that is not white space; the optional `?` never decides.
   */
  predicate ConfirmQuestionAt(s: string, i: nat)
  {
    i < |s| && s[i] == '¿' && OccursAtIgnoringCase(s, ConfirmPhrase, Pattern.RunEnd(Pattern.Space(), s, i + 1))
  }

  /** `askedConfirm`. */
  predicate AskedConfirm(content: string)
  {
    exists i :: 0 <= i < |content| && ConfirmQuestionAt(content, i)
  }

  const AffirmativeWords: seq<string> := ["si", "sí", "correcto", "confirmo", "de acuerdo", "acepto", "ok", "vale"]

  /**
   * `/^(si|sí|correcto|confirmo|de acuerdo|acepto|ok|vale)\b/i` on a string
   * already lower-cased: some alternative starts it and a word boundary
   * (ASCII `\w`) follows.
   */
  predicate AffirmativeText(s: string)
  {
    AffirmativeFrom(s, 0)
  }

  /** The alternatives from the `k`-th on, tried left to right as the engine does. */
  predicate AffirmativeFrom(s: string, k: nat)
    decreases |AffirmativeWords| - k
  {
    k < |AffirmativeWords| && (AffirmativeStart(s, AffirmativeWords[k]) || AffirmativeFrom(s, k + 1))
  }

  /** Trying the alternatives in turn finds one exactly when some alternative matches. */
  lemma {:induction false} AffirmativeFromSpec(s: string, k: nat)
    ensures AffirmativeFrom(s, k) <==>
      exists j :: k <= j < |AffirmativeWords| && AffirmativeStart(s, AffirmativeWords[j])
    decreases |AffirmativeWords| - k
  {
    if k < |AffirmativeWords| {
      AffirmativeFromSpec(s, k + 1);
    }
  }

  /** The alternative `w` starts `s` and a word boundary follows it. */
  predicate AffirmativeStart(s: string, w: string)
  {
    StartsWith(s, w) && IsWordBoundary(s, |w|)
  }

  /** `isAffirmative`: the test runs on the trimmed, lower-cased input. */
  predicate IsAffirmative(original: string)
  {
    AffirmativeText(Lower(Trim(original)))
  }

  /** `confirmedFlag`. */
  predicate ConfirmedFlag(msgs: seq<Message>, original: string)
  {
    AskedConfirm(LastAssistantContent(msgs)) && IsAffirmative(original)
  }

  /** 'sí' (accented) needs a word character after it, because 'í' is not one. */
  lemma AccentedSi(t: string)
    ensures AffirmativeText("sí" + t) <==> t != "" && IsWordChar(t[0])
  {
    var s := "sí" + t;
    AffirmativeFromSpec(s, 0);
    assert s[0] == 's' && s[1] == 'í';
    assert StartsWith(s, "sí");
    forall k | 0 <= k < |AffirmativeWords| && k != 1
      ensures !StartsWith(s, AffirmativeWords[k])
    {
      var w := AffirmativeWords[k];
      assert w[0] != 's' || w[1] != 'í';
    }
    assert AffirmativeWords[1] == "sí";
    if t != "" {
      assert s[2] == t[0];
    }
  }

  /** Plain 'si' needs a non-word character (or nothing) after it. */
  lemma PlainSi(t: string)
    ensures AffirmativeText("si" + t) <==> t == "" || !IsWordChar(t[0])
  {
    var s := "si" + t;
    AffirmativeFromSpec(s, 0);
    assert s[0] == 's' && s[1] == 'i';
    assert StartsWith(s, "si");
    forall k | 0 <= k < |AffirmativeWords| && k != 0
      ensures !StartsWith(s, AffirmativeWords[k])
    {
      var w := AffirmativeWords[k];
      assert w[0] != 's' || w[1] != 'i';
    }
    assert AffirmativeWords[0] == "si";
    if t != "" {
      assert s[2] == t[0];
    }
  }

  /** So 'sí' alone is not affirmative, while 'si' is. */
  lemma SiExamples()
    ensures !AffirmativeText("sí") && AffirmativeText("si")
  {
    AccentedSi("");
    PlainSi("");
    assert "sí" + "" == "sí" && "si" + "" == "si";
  }

  /** Without an earlier answer asking for confirmation the flag is never set. */
  lemma ConfirmNeedsQuestion(msgs: seq<Message>, original: string)
    ensures ConfirmedFlag(msgs, original) ==>
      exists k :: 0 <= k < |msgs| && msgs[k].role == Assistant && AskedConfirm(msgs[k].content)
        && forall j :: k < j < |msgs| ==> msgs[j].role != Assistant
  {
    if ConfirmedFlag(msgs, original) {
      var k := LastAssistant(msgs);
      assert k.Some?;
      assert msgs[k.value].role == Assistant && AskedConfirm(msgs[k.value].content);
    }
  }

  // ---------------------------------------------------------------------------
  // Sending a message
  // ---------------------------------------------------------------------------

  function ToTurn(m: Message): Turn
  {
    Turn(m.role, m.content)
  }

  /** `historyToSend`: the earlier messages and the new one, as role and content. */
  function HistoryToSend(msgs: seq<Message>, u: Message): (h: seq<Turn>)
    ensures |h| == |msgs| + 1
    ensures forall k :: 0 <= k < |msgs| ==> h[k] == Turn(msgs[k].role, msgs[k].content)
    ensures h[|msgs|] == Turn(u.role, u.content)
  {
    var all := msgs + [u];
    assert all[|msgs|] == u;
    assert forall k :: 0 <= k < |msgs| ==> all[k] == msgs[k];
    Map(ToTurn, all)
  }

  /** `prev.map(m => m.id === id ? { ...m, content: c } : m)`. */
  function SetContent(msgs: seq<Message>, id: string, c: string): (r: seq<Message>)
    ensures |r| == |msgs|
  {
    if msgs == [] then []
    else [if msgs[0].id == id then msgs[0].(content := c) else msgs[0]] + SetContent(msgs[1..], id, c)
  }

  /** Only the messages with that id get the new content. */
  lemma {:induction false} SetContentAt(msgs: seq<Message>, id: string, c: string)
    ensures forall k :: 0 <= k < |msgs| ==>
      SetContent(msgs, id, c)[k] == if msgs[k].id == id then msgs[k].(content := c) else msgs[k]
  {
    if msgs != [] {
      SetContentAt(msgs[1..], id, c);
    }
  }

  /** The last update of a message wins. */
  lemma SetContentTwice(msgs: seq<Message>, id: string, a: string, b: string)
    ensures SetContent(SetContent(msgs, id, a), id, b) == SetContent(msgs, id, b)
  {
    SetContentAt(msgs, id, a);
    SetContentAt(SetContent(msgs, id, a), id, b);
    SetContentAt(msgs, id, b);
  }

  /** Updating the one message with a fresh id touches only that message. */
  lemma SetContentFresh(msgs: seq<Message>, m: Message, c: string)
    requires forall k :: 0 <= k < |msgs| ==> msgs[k].id != m.id
    ensures SetContent(msgs + [m], m.id, c) == msgs + [m.(content := c)]
  {
    var l := SetContent(msgs + [m], m.id, c);
    var r := msgs + [m.(content := c)];
    SetContentAt(msgs + [m], m.id, c);
    forall k | 0 <= k < |l| ensures l[k] == r[k] {
      if k < |msgs| {
        assert (msgs + [m])[k] == msgs[k];
      }
    }
  }

  /** What the request to `/api/ai/chat` carries. */
  datatype ChatRequest = ChatRequest(prompt: string, model: string, history: seq<Turn>, confirmed: bool,
                                     authorization: Option<string>)

  /** What the chat endpoint did: a non-OK status and its parsed body (`JNull` if none), no readable body, a stream of decoded chunks, or a throw. */
  datatype ChatAnswer =
    | NotOk(status: nat, body: Json)
    | NoReader
    | Streamed(chunks: seq<string>)
    | Threw(name: string, message: string)

  /** The chunks read so far, concatenated (`accumulated += chunk`). */
  function Concat(chunks: seq<string>): string
  {
    if chunks == [] then "" else Concat(chunks[..|chunks| - 1]) + chunks[|chunks| - 1]
  }

  /** `json?.error || \`Error ${res.status}\``. */
  function ErrorText(status: nat, body: Json): string
  {
    var e := Get(body, "error");
    if Truthy(e) then StringOf(e) else "Error " + NatToString(status)
  }

  /** `accumulated.trim() || 'Procesando tu solicitud...'`. */
  function StreamedContent(accumulated: string): string
  {
    if Trim(accumulated) != "" then Trim(accumulated) else Processing
  }

  /** The placeholder's content once the request is over. */
  function FinalContent(a: ChatAnswer): string
  {
    match a
    case NotOk(status, body) => "Error: " + ErrorText(status, body)
    case NoReader => NoRead
    case Streamed(chunks) => StreamedContent(Concat(chunks))
    case Threw(name, message) =>
      "Error: " + (if name == "AbortError" then TimedOut else if message != "" then message else NetworkError)
  }

  /** `Authorization: Bearer <token>` only when there is a token. */
  function Authorization(token: string): Option<string>
  {
    if token != "" then Some("Bearer " + token) else None
  }

  /** The request for the message `u` after the history `msgs`. */
  function RequestFor(msgs: seq<Message>, u: Message, model: string, token: string): ChatRequest
  {
    ChatRequest(u.content, model, HistoryToSend(msgs, u), ConfirmedFlag(msgs, u.content), Authorization(token))
  }

  // ---------------------------------------------------------------------------
  // Ticket detection
  // ---------------------------------------------------------------------------

  /** Where `/\bS-\d+\b/i` matching at `i` ends, if it matches there. */
  function TicketEnd(s: string, i: nat): (r: Option<nat>)
    requires i <= |s|
    ensures r.Some? ==> i + 3 <= r.value <= |s|
  {
    if i + 2 < |s| && IsWordBoundary(s, i) && (s[i] == 'S' || s[i] == 's') && s[i + 1] == '-' && IsDigit(s[i + 2]) then
      var e := Pattern.RunEnd(IsDigit, s, i + 2);
      if IsWordBoundary(s, e) then Some(e) else None
    else None
  }

  /** The pattern's meaning with backtracking: `s[i..j]` is 'S-' or 's-', one digit or more, with `\b` on both sides. */
  predicate TicketSpan(s: string, i: nat, j: nat)
  {
    && i + 3 <= j <= |s|
    && IsWordBoundary(s, i) && (s[i] == 'S' || s[i] == 's') && s[i + 1] == '-'
    && (forall k :: i + 2 <= k < j ==> IsDigit(s[k]))
    && IsWordBoundary(s, j)
  }

  /** The greedy digit run is the only end a backtracking engine can find. */
  lemma TicketEndIff(s: string, i: nat, j: nat)
    requires i <= |s|
    ensures TicketEnd(s, i) == Some(j) <==> TicketSpan(s, i, j)
  {
    if TicketSpan(s, i, j) {
      var e := Pattern.RunEnd(IsDigit, s, i + 2);
      assert j <= e;
      assert j == e by {
        assert j == |s| || !IsDigit(s[j]);
      }
    }
  }

  function TicketAt(s: string): nat -> bool
  {
    (k: nat) => k <= |s| && TicketEnd(s, k).Some?
  }

  /** `content.match(/\bS-\d+\b/i)?.[0]`. */
  function FirstTicket(s: string): Option<string>
  {
    var i := FirstWhere(TicketAt(s), 0, |s|);
    if i.None? then None else Some(s[i.value..TicketEnd(s, i.value).value])
  }

  /** The ticket found is the leftmost match of the pattern; none is found exactly when there is no match. */
  lemma FirstTicketIsLeftmost(s: string)
    ensures FirstTicket(s).None? <==> forall i, j :: 0 <= i <= |s| ==> !TicketSpan(s, i, j)
    ensures FirstTicket(s).Some? ==>
      exists i: nat, j: nat :: i <= |s| && TicketSpan(s, i, j) && FirstTicket(s).value == s[i..j]
        && forall i2, j2 :: 0 <= i2 < i ==> !TicketSpan(s, i2, j2)
  {
    var f := FirstWhere(TicketAt(s), 0, |s|);
    forall i, j | 0 <= i <= |s| && TicketSpan(s, i, j) ensures TicketAt(s)(i) {
      TicketEndIff(s, i, j);
    }
    if f.Some? {
      var i := f.value;
      var j := TicketEnd(s, i).value;
      TicketEndIff(s, i, j);
      forall i2, j2 | 0 <= i2 < i ensures !TicketSpan(s, i2, j2) {
        assert !TicketAt(s)(i2);
        TicketEndIff(s, i2, j2);
      }
    }
  }

  // ---------------------------------------------------------------------------
  // extractSummaryData
  // ---------------------------------------------------------------------------

  predicate IsUserMessage(m: Message)
  {
    m.role == User
  }

  function ContentOf(m: Message): string
  {
    m.content
  }

  /** `allMessages.filter(m => m.role === 'user').map(m => m.content).join('\n')`. */
  function UserText(msgs: seq<Message>): string
  {
    Join(Map(ContentOf, Filter(IsUserMessage, msgs)), "\n")
  }

  /** An answer adds nothing to the text read; a user message adds a line. */
  lemma UserTextAppend(msgs: seq<Message>, m: Message)
    ensures m.role == Assistant ==> UserText(msgs + [m]) == UserText(msgs)
    ensures m.role == User ==>
      UserText(msgs + [m]) == if Filter(IsUserMessage, msgs) == [] then m.content else UserText(msgs) + "\n" + m.content
  {
    FilterConcat(IsUserMessage, msgs, [m]);
    assert [m][1..] == [];
    var us := Filter(IsUserMessage, msgs);
    if m.role == Assistant {
      assert Filter(IsUserMessage, msgs + [m]) == us;
    } else {
      assert Filter(IsUserMessage, msgs + [m]) == us + [m];
      MapConcat(ContentOf, us, [m]);
      assert Map(ContentOf, [m]) == [m.content];
      JoinAppend(Map(ContentOf, us), m.content, "\n");
      assert Map(ContentOf, us) == [] <==> us == [];
    }
  }

  /** A keyword alternative and the rest of its line: `(w1|w2|…)[^\n]*`, with `\b` before or after when asked. */
  datatype KeywordLine = KeywordLine(words: seq<string>, ignoreCase: bool, boundaryBefore: bool, boundaryAfter: bool)

  /** `\b[Ll]anzamiento[^\n]*` */
  const Proyecto: KeywordLine := KeywordLine(["Lanzamiento", "lanzamiento"], false, true, false)
  /** `\b(Calle|Carrera|Avenida|Transversal|Diagonal)\b[^\n]*` with `/i`. */
  const Direccion: KeywordLine := KeywordLine(["Calle", "Carrera", "Avenida", "Transversal", "Diagonal"], true, true, true)
  /** `plegado[^\n]*` with `/i`. */
  const Plegado: KeywordLine := KeywordLine(["plegado"], true, false, false)
  /** `laminado[^\n]*` with `/i`. */
  const Laminado: KeywordLine := KeywordLine(["laminado"], true, false, false)
  /** `(condicion|condición|observaci[oó]n|nota)[^\n]*` with `/i`. */
  const Condiciones: KeywordLine := KeywordLine(["condicion", "condición", "observacion", "observación", "nota"], true, false, false)

  predicate WordAt(rx: KeywordLine, s: string, w: string, i: nat)
  {
    && (if rx.ignoreCase then OccursAtIgnoringCase(s, w, i) else OccursAt(s, w, i))
    && (!rx.boundaryAfter || IsWordBoundary(s, i + |w|))
  }

  /** One of `words` matches at `i`, tried in order as the alternation does. */
  predicate SomeWordAt(rx: KeywordLine, s: string, words: seq<string>, i: nat)
    decreases |words|
  {
    words != [] && (WordAt(rx, s, words[0], i) || SomeWordAt(rx, s, words[1..], i))
  }

  /** The pattern matches at `i`. */
  predicate KeywordLineAt(rx: KeywordLine, s: string, i: nat)
  {
    && i <= |s|
    && (!rx.boundaryBefore || IsWordBoundary(s, i))
    && SomeWordAt(rx, s, rx.words, i)
  }

  function KeywordAt(rx: KeywordLine, s: string): nat -> bool
  {
    (k: nat) => KeywordLineAt(rx, s, k)
  }

  /** The end of the line that starts, or continues, at `i` (`[^\n]*`). */
  function LineEnd(s: string, i: nat): (e: nat)
    requires i <= |s|
    ensures i <= e <= |s| && (e == |s| || s[e] == '\n')
    ensures forall k :: i <= k < e ==> s[k] != '\n'
  {
    Pattern.RunEnd(Pattern.NotChar('\n'), s, i)
  }

  /**
   * `s.match(rx)?.[0]`: from the leftmost place the pattern matches to the
   * end of that line (none of the keywords holds a newline).
   */
  function KeywordLineFind(rx: KeywordLine, s: string): Option<string>
  {
    var i := FirstWhere(KeywordAt(rx, s), 0, |s|);
    if i.None? then None else Some(s[i.value..LineEnd(s, i.value)])
  }

  /** A match is found exactly when the pattern matches somewhere, and it starts at the leftmost such place. */
  lemma KeywordLineFindIsLeftmost(rx: KeywordLine, s: string)
    ensures KeywordLineFind(rx, s).Some? <==> exists i :: 0 <= i <= |s| && KeywordLineAt(rx, s, i)
    ensures KeywordLineFind(rx, s).Some? ==>
      exists i :: 0 <= i <= |s| && KeywordLineAt(rx, s, i) && KeywordLineFind(rx, s).value == s[i..LineEnd(s, i)]
        && forall k :: 0 <= k < i ==> !KeywordLineAt(rx, s, k)
  {
    var f := FirstWhere(KeywordAt(rx, s), 0, |s|);
    if f.None? {
      forall k | 0 <= k <= |s| ensures !KeywordLineAt(rx, s, k) {
        assert !KeywordAt(rx, s)(k);
      }
    } else {
      var i := f.value;
      assert KeywordAt(rx, s)(i);
      forall k | 0 <= k < i ensures !KeywordLineAt(rx, s, k) {
        assert !KeywordAt(rx, s)(k);
      }
    }
  }

  /** `m ? m[0] : ''`. */
  function KeywordLineText(rx: KeywordLine, s: string): string
  {
    var m := KeywordLineFind(rx, s);
    if m.Some? then m.value else ""
  }

  /** `acabado`: the `plegado` line, then the `laminado` line, joined with ' · '. */
  function Acabado(s: string): string
  {
    var p := KeywordLineFind(Plegado, s);
    var l := KeywordLineFind(Laminado, s);
    Join((if p.Some? then [p.value] else []) + (if l.Some? then [l.value] else []), " · ")
  }

  /**
   * Both finishes found give "<plegado line> · <laminado line>", one gives
   * that line alone, none gives ''.
   */
  lemma AcabadoCases(s: string)
    ensures var p := KeywordLineFind(Plegado, s); var l := KeywordLineFind(Laminado, s);
      && (p.Some? && l.Some? ==> Acabado(s) == p.value + " · " + l.value)
      && (p.Some? && l.None? ==> Acabado(s) == p.value)
      && (p.None? && l.Some? ==> Acabado(s) == l.value)
      && (p.None? && l.None? ==> Acabado(s) == "")
  {
    var p := KeywordLineFind(Plegado, s);
    var l := KeywordLineFind(Laminado, s);
    if p.Some? && l.Some? {
      var parts := [p.value] + [l.value];
      assert |parts| == 2 && parts[0] == p.value && parts[1..] == [l.value];
      assert Join(parts, " · ") == p.value + " · " + Join([l.value], " · ");
    } else if p.Some? {
      assert [p.value] + [] == [p.value];
    } else if l.Some? {
      assert [] + [l.value] == [l.value];
    }
  }

  /** `/\bA\d\b/` matches at `i`. */
  predicate PaperSizeAt(s: string, i: nat)
  {
    i + 2 <= |s| && IsWordBoundary(s, i) && s[i] == 'A' && IsDigit(s[i + 1]) && IsWordBoundary(s, i + 2)
  }

  function PaperSizeIn(s: string): nat -> bool
  {
    (k: nat) => PaperSizeAt(s, k)
  }

  /**
   * `/\b(\d{2,4})\s*x\s*(\d{2,4})\s*(mm|cm)\b/i` matching at `i`: its three
   * groups.  Each bounded digit group must be a whole run of digits, because
   * what follows it (white space, 'x', 'm' or 'c') is never a digit; the
   * greedy white-space runs end before a letter for the same reason.
   */
  function DimensionAt(s: string, i: nat): (r: Option<(string, string, string)>)
    requires i <= |s|
    ensures r.Some? ==> 2 <= |r.value.0| <= 4 && 2 <= |r.value.1| <= 4 && |r.value.2| == 2
    ensures r.Some? ==> forall k :: 0 <= k < |r.value.0| ==> IsDigit(r.value.0[k])
    ensures r.Some? ==> forall k :: 0 <= k < |r.value.1| ==> IsDigit(r.value.1[k])
    ensures r.Some? ==> IsUnit(r.value.2)
  {
    var ends := DimensionEnds(s, i);
    if ends.None? then None
    else
      var (a, c, d, e) := ends.value;
      DigitSlice(s, i, a);
      DigitSlice(s, c, d);
      Some((s[i..a], s[c..d], s[e..e + 2]))
  }

  /** `(mm|cm)` under the `i` flag. */
  predicate IsUnit(u: string)
  {
    |u| == 2 && LowerChar(u[0]) in {'m', 'c'} && LowerChar(u[1]) == 'm'
  }

  /** The positions the match of `DimensionAt` reaches: the two digit runs end at `a` and `d`, the unit starts at `e`. */
  function DimensionEnds(s: string, i: nat): (r: Option<(nat, nat, nat, nat)>)
    requires i <= |s|
    ensures r.Some? ==>
      && i + 2 <= r.value.0 <= i + 4 && r.value.0 < r.value.1 && r.value.1 + 2 <= r.value.2 <= r.value.1 + 4
      && r.value.2 <= r.value.3 && r.value.3 + 2 <= |s|
      && (forall k :: i <= k < r.value.0 ==> IsDigit(s[k]))
      && (forall k :: r.value.1 <= k < r.value.2 ==> IsDigit(s[k]))
      && IsUnit(s[r.value.3..r.value.3 + 2])
  {
    if !IsWordBoundary(s, i) then None
    else
      var left := WidthThenX(s, i);
      if left.None? then None
      else
        var (a, c) := left.value;
        var right := HeightThenUnit(s, c);
        if right.None? then None
        else Some((a, c, right.value.0, right.value.1))
  }

  /** `(\d{2,4})\s*x\s*` from `i`: the end of the digits and the position after the spaces that follow 'x'. */
  function WidthThenX(s: string, i: nat): (r: Option<(nat, nat)>)
    requires i <= |s|
    ensures r.Some? ==>
      && i + 2 <= r.value.0 <= i + 4 && r.value.0 < r.value.1 <= |s|
      && forall k :: i <= k < r.value.0 ==> IsDigit(s[k])
  {
    var a := Pattern.RunEnd(IsDigit, s, i);
    var b := Pattern.RunEnd(Pattern.Space(), s, a);
    if !(2 <= a - i <= 4 && b < |s| && LowerChar(s[b]) == 'x') then None
    else Some((a, Pattern.RunEnd(Pattern.Space(), s, b + 1)))
  }

  /** `(\d{2,4})\s*(mm|cm)\b` from `c`: the end of the digits and the start of the unit. */
  function HeightThenUnit(s: string, c: nat): (r: Option<(nat, nat)>)
    requires c <= |s|
    ensures r.Some? ==>
      && c + 2 <= r.value.0 <= c + 4 && r.value.0 <= r.value.1 && r.value.1 + 2 <= |s|
      && (forall k :: c <= k < r.value.0 ==> IsDigit(s[k]))
      && IsUnit(s[r.value.1..r.value.1 + 2])
  {
    var d := Pattern.RunEnd(IsDigit, s, c);
    var e := Pattern.RunEnd(Pattern.Space(), s, d);
    if !(2 <= d - c <= 4 && e + 2 <= |s| && IsUnit(s[e..e + 2]) && IsWordBoundary(s, e + 2)) then None
    else Some((d, e))
  }

  lemma DigitSlice(s: string, x: nat, y: nat)
    requires x <= y <= |s| && forall k :: x <= k < y ==> IsDigit(s[k])
    ensures forall k :: 0 <= k < y - x ==> IsDigit(s[x..y][k])
  {
    forall k | 0 <= k < y - x ensures IsDigit(s[x..y][k]) {
      assert s[x..y][k] == s[x + k];
    }
  }

  function DimensionIn(s: string): nat -> bool
  {
    (k: nat) => k <= |s| && DimensionAt(s, k).Some?
  }

  /** `${mDim[1]} x ${mDim[2]} ${mDim[3]}`. */
  function DimensionText(g: (string, string, string)): string
  {
    g.0 + " x " + g.1 + " " + g.2
  }

  /** `medidas`: a paper size first, else the dimensions, else ''. */
  function Medidas(s: string): string
  {
    var a := FirstWhere(PaperSizeIn(s), 0, |s|);
    if a.Some? then s[a.value..a.value + 2]
    else
      var d := FirstWhere(DimensionIn(s), 0, |s|);
      if d.Some? then DimensionText(DimensionAt(s, d.value).value) else ""
  }

  /** A paper size anywhere wins over any dimensions: the leftmost one is the size. */
  lemma PaperSizeWins(s: string, i: nat)
    requires i <= |s| && PaperSizeAt(s, i)
    ensures exists j :: 0 <= j <= i && PaperSizeAt(s, j) && Medidas(s) == s[j..j + 2]
                        && (forall k :: 0 <= k < j ==> !PaperSizeAt(s, k))
    ensures |Medidas(s)| == 2 && Medidas(s)[0] == 'A' && IsDigit(Medidas(s)[1])
  {
    var a := FirstWhere(PaperSizeIn(s), 0, |s|);
    assert PaperSizeIn(s)(i);
    var j := a.value;
    assert PaperSizeAt(s, j);
    forall k | 0 <= k < j ensures !PaperSizeAt(s, k) {
      assert !PaperSizeIn(s)(k);
    }
  }

  /**
   * Without a paper size the leftmost dimensions are written "W x H unit";
   * with neither, the size is ''.
   */
  lemma DimensionsOtherwise(s: string)
    requires forall i :: 0 <= i <= |s| ==> !PaperSizeAt(s, i)
    ensures (exists i :: 0 <= i <= |s| && DimensionAt(s, i).Some?) ==>
      exists i :: 0 <= i <= |s| && DimensionAt(s, i).Some? && Medidas(s) == DimensionText(DimensionAt(s, i).value)
        && (forall k :: 0 <= k < i ==> DimensionAt(s, k).None?)
    ensures (forall i :: 0 <= i <= |s| ==> DimensionAt(s, i).None?) ==> Medidas(s) == ""
  {
    forall k | 0 <= k <= |s| ensures !PaperSizeIn(s)(k) {
      assert !PaperSizeAt(s, k);
    }
    var d := FirstWhere(DimensionIn(s), 0, |s|);
    if d.Some? {
      var i := d.value;
      assert DimensionIn(s)(i);
      forall k | 0 <= k < i ensures DimensionAt(s, k).None? {
        assert !DimensionIn(s)(k);
      }
    } else {
      forall k | 0 <= k <= |s| ensures DimensionAt(s, k).None? {
        assert !DimensionIn(s)(k);
      }
    }
  }

  /**
   * The patterns handed to the parameter `rx`: `cliente`, `fechaEntrega`,
   * `lugarEntrega`, the quantity and product word, paper and weight, and
   * printed sides.  `rx(p, text)` is `text.match(p)`: its groups, `[0]` the
   * whole match.
   */
  datatype Rx = Cliente | Fecha | Lugar | Cantidad | Papel | Impresion

  /** `m[k]`, '' where the group did not take part. */
  function Group(m: seq<string>, k: nat): string
  {
    if k < |m| then m[k] else ""
  }

  /** One requested product and its details. */
  datatype Product = Product(descripcion: string, medidas: string, papelGramaje: string,
                             impresionCaras: string, acabado: string)

  datatype Contact = Contact(nombre: string, email: string)

  /** What `extractSummaryData` returns. */
  datatype Summary = Summary(cliente: string, proyecto: string, fechaEntrega: string, lugarEntrega: string,
                             direccionEntrega: string, productos: seq<Product>, condiciones: string,
                             contacto: Contact)

  /** The single product read off the text. */
  function ProductOf(text: string, rx: (Rx, string) -> Option<seq<string>>): Product
  {
    var cantidad := rx(Cantidad, text);
    var papel := rx(Papel, text);
    var impresion := rx(Impresion, text);
    Product(
      if cantidad.Some? then Trim(Group(cantidad.value, 1) + " " + Group(cantidad.value, 2)) else "",
      Medidas(text),
      if papel.Some? then Group(papel.value, 1) + " " + Group(papel.value, 2) + "gr" else "",
      if impresion.Some? then Trim(Group(impresion.value, 1) + " " + Group(impresion.value, 2)) else "",
      Acabado(text))
  }

  /** `[product].filter(p => p.descripcion || p.medidas || …)`. */
  function KeepFilled(p: Product): seq<Product>
  {
    if p.descripcion != "" || p.medidas != "" || p.papelGramaje != "" || p.impresionCaras != "" || p.acabado != ""
    then [p] else []
  }

  /** `extractSummaryData(allMessages)`; `user` is the signed-in user's record. */
  function ExtractSummary(msgs: seq<Message>, user: Json, rx: (Rx, string) -> Option<seq<string>>): Summary
  {
    var text := UserText(msgs);
    var cliente := rx(Cliente, text);
    var fecha := rx(Fecha, text);
    var lugar := rx(Lugar, text);
    Summary(
      if cliente.Some? then Group(cliente.value, 0) else "",
      KeywordLineText(Proyecto, text),
      if fecha.Some? then Trim(Group(fecha.value, 0)) else "",
      if lugar.Some? then Group(lugar.value, 0) else "",
      KeywordLineText(Direccion, text),
      KeepFilled(ProductOf(text, rx)),
      KeywordLineText(Condiciones, text),
      Contact(StringOf(Or(Get(Get(user, "user_metadata"), "full_name"), JStr(""))),
              StringOf(Or(Get(user, "email"), JStr("")))))
  }

  /** The summary reads only the users' messages: an answer appended changes nothing. */
  lemma AnswersIgnored(msgs: seq<Message>, m: Message, user: Json, rx: (Rx, string) -> Option<seq<string>>)
    requires m.role == Assistant
    ensures ExtractSummary(msgs + [m], user, rx) == ExtractSummary(msgs, user, rx)
  {
    UserTextAppend(msgs, m);
  }

  /** Two histories with the same user text have the same summary. */
  lemma OnlyUserTextMatters(a: seq<Message>, b: seq<Message>, user: Json, rx: (Rx, string) -> Option<seq<string>>)
    requires UserText(a) == UserText(b)
    ensures ExtractSummary(a, user, rx) == ExtractSummary(b, user, rx)
  {
  }

  /**
   * There is at most one product: the one read off the text, kept exactly
   * when one of its five fields is not empty.
   */
  lemma ProductosAtMostOne(msgs: seq<Message>, user: Json, rx: (Rx, string) -> Option<seq<string>>)
    ensures var s := ExtractSummary(msgs, user, rx); var p := ProductOf(UserText(msgs), rx);
      && |s.productos| <= 1
      && (s.productos == [p] <==>
            p.descripcion != "" || p.medidas != "" || p.papelGramaje != "" || p.impresionCaras != "" || p.acabado != "")
      && (s.productos == [] <==>
            p.descripcion == "" && p.medidas == "" && p.papelGramaje == "" && p.impresionCaras == "" && p.acabado == "")
      && p.medidas == Medidas(UserText(msgs)) && p.acabado == Acabado(UserText(msgs))
  {
  }

  /** The latest answer's ticket, and the summary, after the effect ran on `msgs`. */
  function AfterMessages(msgs: seq<Message>, user: Json, rx: (Rx, string) -> Option<seq<string>>,
                         ticketId: Option<string>, summary: Option<Summary>): (Option<string>, Option<Summary>)
  {
    var t := FirstTicket(LastAssistantContent(msgs));
    if t.Some? && t != ticketId then (t, Some(ExtractSummary(msgs, user, rx))) else (ticketId, summary)
  }

  /**
   * The summary is rebuilt only for a ticket other than the stored one;
   * without a ticket, or with the same one, nothing changes, so running the
   * effect again changes nothing.
   */
  lemma EffectRecomputesOnlyOnNewTicket(msgs: seq<Message>, user: Json, rx: (Rx, string) -> Option<seq<string>>,
                                        ticketId: Option<string>, summary: Option<Summary>)
    ensures var t := FirstTicket(LastAssistantContent(msgs));
      && (t.Some? && t != ticketId ==>
            AfterMessages(msgs, user, rx, ticketId, summary) == (t, Some(ExtractSummary(msgs, user, rx))))
      && (t.None? || t == ticketId ==> AfterMessages(msgs, user, rx, ticketId, summary) == (ticketId, summary))
    ensures var r := AfterMessages(msgs, user, rx, ticketId, summary);
      AfterMessages(msgs, user, rx, r.0, r.1) == r
  {
  }

  // ---------------------------------------------------------------------------
  // The page
  // ---------------------------------------------------------------------------

  /** The page's state. */
  class Page {
    var input: string
    var messages: seq<Message>
    var model: string
    const authToken: string
    const user: Json
    var ticketId: Option<string>
    var summary: Option<Summary>

    /** A signed-in page: `user` and the session's token ('' for none) as the mount effect set them. */
    constructor (user: Json, authToken: string)
      ensures this.user == user && this.authToken == authToken
      ensures input == "" && messages == [] && model == DefaultModel && ticketId == None && summary == None
    {
      this.user := user;
      this.authToken := authToken;
      input := "";
      messages := [];
      model := DefaultModel;
      ticketId := None;
      summary := None;
    }

    /**
     * `handleSendMessage`: white space alone changes nothing and sends
     * nothing; otherwise the message and a placeholder answer are appended,
     * the input is cleared, the request is sent, and the placeholder (every
     * message with its id) ends with the answer's content.
     */
    method Send(userId: string, assistantId: string, answer: ChatAnswer) returns (request: Option<ChatRequest>)
      modifies this`input, this`messages
      ensures Trim(old(input)) == "" ==> request.None? && input == old(input) && messages == old(messages)
      ensures Trim(old(input)) != "" ==>
        var u := Message(userId, old(input), User);
        && request == Some(RequestFor(old(messages), u, model, authToken))
        && input == ""
        && messages == SetContent(old(messages) + [u, Message(assistantId, Thinking, Assistant)],
                                  assistantId, FinalContent(answer))
    {
      if Trim(input) == "" {
        return None;
      }
      var original, prior := input, messages;
      var u := Message(userId, original, User);
      request := Some(RequestFor(prior, u, model, authToken));
      input := "";
      messages := prior + [u, Message(assistantId, Thinking, Assistant)];
      Receive(assistantId, answer);
    }

    /** The `try`/`catch` around the request: the placeholder ends with the answer's content. */
    method Receive(assistantId: string, answer: ChatAnswer)
      modifies this`messages
      ensures messages == SetContent(old(messages), assistantId, FinalContent(answer))
    {
      if answer.Streamed? {
        ReadStream(assistantId, answer.chunks);
      } else {
        messages := SetContent(messages, assistantId, FinalContent(answer));
      }
    }

    /**
     * The reading loop: each decoded chunk is appended to what came before
     * and shown in the placeholder; at the end the placeholder shows the
     * trimmed text, or a waiting notice when that is empty.
     */
    method ReadStream(assistantId: string, chunks: seq<string>)
      modifies this`messages
      ensures messages == SetContent(old(messages), assistantId, StreamedContent(Concat(chunks)))
    {
      var base := messages;
      var accumulated := "";
      var i := 0;
      while i < |chunks|
        invariant 0 <= i <= |chunks|
        invariant accumulated == Concat(chunks[..i])
        invariant messages == if i == 0 then base else SetContent(base, assistantId, accumulated)
      {
        accumulated := accumulated + chunks[i];
        assert chunks[..i + 1][..i] == chunks[..i];
        if i > 0 {
          SetContentTwice(base, assistantId, Concat(chunks[..i]), accumulated);
        }
        messages := SetContent(messages, assistantId, accumulated);
        i := i + 1;
      }
      assert chunks[..|chunks|] == chunks;
      var final := StreamedContent(accumulated);
      if i > 0 {
        SetContentTwice(base, assistantId, accumulated, final);
      }
      messages := SetContent(messages, assistantId, final);
    }

    /** The effect on `[messages]`. */
    method DetectTicket(rx: (Rx, string) -> Option<seq<string>>)
      modifies this`ticketId, this`summary
      ensures (ticketId, summary) == AfterMessages(messages, user, rx, old(ticketId), old(summary))
    {
      var r := AfterMessages(messages, user, rx, ticketId, summary);
      ticketId := r.0;
      summary := r.1;
    }
  }

  /**
   * With fresh ids, a send appends exactly the user's message and the
   * answer's final content.
   */
  lemma SendAppendsTwo(msgs: seq<Message>, u: Message, assistantId: string, final: string)
    requires u.id != assistantId && forall k :: 0 <= k < |msgs| ==> msgs[k].id != assistantId
    ensures SetContent(msgs + [u, Message(assistantId, Thinking, Assistant)], assistantId, final)
      == msgs + [u, Message(assistantId, final, Assistant)]
  {
    var a := Message(assistantId, Thinking, Assistant);
    assert msgs + [u, a] == (msgs + [u]) + [a];
    SetContentFresh(msgs + [u], a, final);
    assert (msgs + [u]) + [a.(content := final)] == msgs + [u, Message(assistantId, final, Assistant)];
  }
}
