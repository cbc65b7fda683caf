/**
 * src/app/admin/auth-events/page.tsx: the administrators' list of captured
 * authentication events, with an e-mail filter and an inclusive date range.
 * Rows are the JSON objects `/api/admin/auth-events` returns (`id`, `type`,
 * `payload`, `created_at`).  Date parsing (`new Date(x).getTime()`) is the
 * parameter `time`, and the fetch's outcome is an input.
 */
module AuthEventsPage {
  import opened Text
  import opened Seqs
  import opened Db

  const Unknown: string := "Error desconocido"

  /** The three filter inputs; `""` switches a filter off. */
  datatype Filters = Filters(email: string, start: string, end: string)

  const NoFilters: Filters := Filters("", "", "")

  /** `ev?.payload?.user?.email || ev?.payload?.email || ""`. */
  function EmailOf(ev: Json): Json
  {
    var payload := Get(ev, "payload");
    Or(Get(Get(payload, "user"), "email"), Or(Get(payload, "email"), JStr("")))
  }

  /** The e-mail a row shows: the user's, else the payload's, else empty. */
  lemma EmailFallback(ev: Json)
    ensures var payload := Get(ev, "payload");
      var first := Get(Get(payload, "user"), "email");
      var second := Get(payload, "email");
      && (Truthy(first) ==> EmailOf(ev) == first)
      && (!Truthy(first) && Truthy(second) ==> EmailOf(ev) == second)
      && (!Truthy(first) && !Truthy(second) ==> EmailOf(ev) == JStr(""))
  {
  }

  /** Whether one row passes the filters: the predicate given to `events.filter`. */
  predicate Keep(f: Filters, time: string -> int, ev: Json)
  {
    var created := time(StringOf(Get(ev, "created_at")));
    && (f.email != "" ==> Contains(Lower(StringOf(EmailOf(ev))), Lower(f.email)))
    && (f.start != "" ==> created >= time(f.start))
    && (f.end != "" ==> created <= time(f.end))
  }

  function KeepWith(f: Filters, time: string -> int): Json -> bool
  {
    ev => Keep(f, time, ev)
  }

  /** `filtered`. */
  function Filtered(events: seq<Json>, f: Filters, time: string -> int): seq<Json>
  {
    Filter(KeepWith(f, time), events)
  }

  /**
   * The table shows some of the events, in their order, and never more than
   * there are: the "Mostrando n de m" line has n <= m.
   */
  lemma FilteredIsSublist(events: seq<Json>, f: Filters, time: string -> int)
    ensures IsSubsequence(Filtered(events, f, time), events)
    ensures |Filtered(events, f, time)| <= |events|
  {
    FilterIsSubsequence(KeepWith(f, time), events);
  }

  /** A row is shown exactly when it is one of the events and passes every switched-on filter. */
  lemma FilteredMembers(events: seq<Json>, f: Filters, time: string -> int, ev: Json)
    ensures ev in Filtered(events, f, time) <==> ev in events && Keep(f, time, ev)
  {
    FilterMembers(KeepWith(f, time), events);
  }

  /** With every filter empty, every event is shown. */
  lemma NoFiltersKeepsAll(events: seq<Json>, time: string -> int)
    ensures Filtered(events, NoFilters, time) == events
  {
    FilterAll(KeepWith(NoFilters, time), events);
  }

  /**
   * The e-mail filter is a substring test that ignores case on both sides:
   * filters equal up to case keep the same rows, and a row whose address
   * contains the filter text is kept by it.
   */
  lemma EmailFilterIgnoresCase(f: Filters, g: Filters, time: string -> int, ev: Json)
    requires Lower(f.email) == Lower(g.email) && f.start == g.start && f.end == g.end
    ensures f.email != "" && g.email != "" ==> (Keep(f, time, ev) <==> Keep(g, time, ev))
  {
  }

  lemma EmailFilterMatches(email: string, time: string -> int, ev: Json)
    requires email != ""
    ensures Keep(Filters(email, "", ""), time, ev) <==> Contains(Lower(StringOf(EmailOf(ev))), Lower(email))
  {
  }

  /** Both ends of the date range are inclusive: a row dated exactly at either end is kept. */
  lemma BoundsInclusive(start: string, end: string, time: string -> int, ev: Json)
    requires start != "" && end != ""
    ensures Keep(Filters("", start, end), time, ev)
      <==> time(start) <= time(StringOf(Get(ev, "created_at"))) <= time(end)
  {
  }

  /** What `fetch("/api/admin/auth-events")` gave: a reply (status, parsed body) or a thrown error's message. */
  datatype Fetched = Answer(ok: bool, status: nat, data: Json) | Threw(message: string)

  /** `data.events || []`; a truthy non-array is read as no rows here. */
  function RowsOf(data: Json): seq<Json>
  {
    var rows := Or(Get(data, "events"), JArr([]));
    if rows.JArr? then rows.items else []
  }

  /** The message `setError` receives: `Error <status>` for a non-2xx reply, `e.message || "Error desconocido"`. */
  function FailureMessage(a: Fetched): string
    requires !(a.Answer? && a.ok)
  {
    if a.Answer? then "Error " + NatToString(a.status)
    else if a.message != "" then a.message
    else Unknown
  }

  /** The page's state. */
  class Page {
    var events: seq<Json>
    var loading: bool
    var error: Option<string>
    var filterEmail: string
    var startDate: string
    var endDate: string

    /** The first render: no rows, loading, no error, no filters. */
    constructor ()
      ensures events == [] && loading && error.None?
      ensures filterEmail == "" && startDate == "" && endDate == ""
    {
      events := [];
      loading := true;
      error := None;
      filterEmail := "";
      startDate := "";
      endDate := "";
    }

    function CurrentFilters(): Filters
      reads this
    {
      Filters(filterEmail, startDate, endDate)
    }

    /** The rows the table shows. */
    function Shown(time: string -> int): seq<Json>
      reads this
    {
      Filtered(events, CurrentFilters(), time)
    }

    /**
     * `fetchEvents`: a successful reply replaces the rows and clears the
     * error; a failure keeps the old rows and sets the error; loading ends
     * either way.
     */
    method FetchEvents(a: Fetched)
      modifies this`events, this`loading, this`error
      ensures !loading
      ensures a.Answer? && a.ok ==> events == RowsOf(a.data) && error.None?
      ensures !(a.Answer? && a.ok) ==> events == old(events) && error == Some(FailureMessage(a))
    {
      loading := true;
      error := None;
      if a.Answer? && a.ok {
        events := RowsOf(a.data);
      } else {
        error := Some(FailureMessage(a));
      }
      loading := false;
    }

    /** 'Limpiar filtros': all three filters become empty, so every row is shown again. */
    method ClearFilters(time: string -> int)
      modifies this`filterEmail, this`startDate, this`endDate
      ensures filterEmail == "" && startDate == "" && endDate == ""
      ensures Shown(time) == events
    {
      filterEmail := "";
      startDate := "";
      endDate := "";
      NoFiltersKeepsAll(events, time);
    }
  }
}
