/**
 * scripts/smoke-orchestrator-tools.mjs: the smoke test that drives
 * `/api/ai/chat` through a scripted conversation.  Modelled here: loading
 * `.env.local` into the process environment, the random strings, the
 * argument normalisation, the choice of test credentials and the request
 * headers.  The file's contents, `Math.random()` draws, the saved user file
 * and the Supabase admin call are inputs.
 */
module SmokeScript {
  import opened Text
  import opened Db

  // ---------------------------------------------------------------------------
  // .env.local
  // ---------------------------------------------------------------------------

  /** One line of `content.split(/\r?\n/)`: a `\r` just before the `\n` goes with the separator. */
  function DropCr(s: string): string
  {
    if s != [] && s[|s| - 1] == '\r' then s[..|s| - 1] else s
  }

  /** `content.split(/\r?\n/)`. */
  function Lines(s: string): (lines: seq<string>)
    ensures |lines| >= 1
    ensures forall k :: 0 <= k < |lines| ==> '\n' !in lines[k]
  {
    if '\n' !in s then [s]
    else
      var i := FirstIndexOfChar(s, '\n');
      assert forall c :: c in DropCr(s[..i]) ==> c in s[..i];
      [DropCr(s[..i])] + Lines(s[i + 1..])
  }

  /** Without carriage returns, splitting on `/\r?\n/` is splitting on `\n`. */
  lemma {:induction false} LinesWithoutCr(s: string)
    requires '\r' !in s
    ensures Lines(s) == Split(s, '\n')
    decreases |s|
  {
    if '\n' in s {
      var i := FirstIndexOfChar(s, '\n');
      assert '\r' !in s[i + 1..] by {
        assert forall c :: c in s[i + 1..] ==> c in s;
      }
      if s[..i] != [] {
        assert s[..i][i - 1] == s[i - 1];
      }
      LinesWithoutCr(s[i + 1..]);
    }
  }

  predicate IsKeyChar(c: char) { IsAsciiUpper(c) || IsDigit(c) || c == '_' }

  /** `rawVal.replace(/^"|"$/g, '')`: at most one leading and one trailing quote go. */
  function StripQuotes(v: string): string
  {
    var a := if v != [] && v[0] == '"' then v[1..] else v;
    if a != [] && a[|a| - 1] == '"' then a[..|a| - 1] else a
  }

  /** Quoting a value and stripping it gives it back, even when it holds quotes itself. */
  lemma StripQuotesWrapped(x: string)
    ensures StripQuotes("\"" + x + "\"") == x
  {
    var v := "\"" + x + "\"";
    assert v[1..] == x + "\"";
    assert (x + "\"")[..|x|] == x;
  }

  /** A value with no quote at either end is kept as it is. */
  lemma StripQuotesPlain(x: string)
    requires x == [] || (x[0] != '"' && x[|x| - 1] != '"')
    ensures StripQuotes(x) == x
  {
  }

  /** A quote on one side only goes, the other side is kept. */
  lemma StripQuotesOneSided(x: string)
    requires x == [] || (x[0] != '"' && x[|x| - 1] != '"')
    ensures StripQuotes("\"" + x) == x
    ensures StripQuotes(x + "\"") == x
  {
    assert ("\"" + x)[1..] == x;
    assert (x + "\"")[..|x|] == x;
  }

  /** `line.match(/^([A-Z0-9_]+)=(.*)$/)`, as the key and the stripped value. */
  function Parse(line: string): Option<(string, string)>
  {
    if '=' !in line then None
    else
      var i := FirstIndexOfChar(line, '=');
      var key := line[..i];
      var raw := line[i + 1..];
      if key != [] && (forall c :: c in key ==> IsKeyChar(c)) && (forall c :: c in raw ==> !IsLineTerminator(c))
      then Some((key, StripQuotes(raw)))
      else None
  }

  /**
   * A line is loaded exactly when it is a non-empty run of `[A-Z0-9_]`, an
   * `=`, and a rest without line terminators; the key stops at the first
   * `=` and the value keeps every later `=`.
   */
  lemma ParseAccepts(key: string, raw: string)
    requires key != [] && (forall c :: c in key ==> IsKeyChar(c))
    requires forall c :: c in raw ==> !IsLineTerminator(c)
    ensures Parse(key + "=" + raw) == Some((key, StripQuotes(raw)))
  {
    var line := key + "=" + raw;
    assert line[|key|] == '=';
    assert line[..|key|] == key;
    assert '=' !in key by {
      forall c | c in key ensures c != '=' { assert IsKeyChar(c); }
    }
    FirstIndexOfCharAt(line, '=', |key|);
    assert line[|key| + 1..] == raw;
  }

  /** Conversely, every loaded line has that shape. */
  lemma ParseShape(line: string)
    requires Parse(line).Some?
    ensures var (key, v) := Parse(line).value;
      exists raw :: line == key + "=" + raw && v == StripQuotes(raw)
        && key != [] && (forall c :: c in key ==> IsKeyChar(c))
        && (forall c :: c in raw ==> !IsLineTerminator(c))
  {
    var i := FirstIndexOfChar(line, '=');
    var raw := line[i + 1..];
    assert line == line[..i] + "=" + raw;
  }

  /** Assigning `process.env[key] = val` for a line, unless the variable is already set and non-empty. */
  function Apply(env: map<string, string>, line: string): map<string, string>
  {
    match Parse(line)
    case None => env
    case Some((key, v)) => if key in env && env[key] != "" then env else env[key := v]
  }

  /** `forEach` over the lines, in file order. */
  function LoadAll(env: map<string, string>, lines: seq<string>): map<string, string>
    decreases |lines|
  {
    if lines == [] then env else LoadAll(Apply(env, lines[0]), lines[1..])
  }

  /** The values the lines give `key`, in file order. */
  function ValuesFor(key: string, lines: seq<string>): seq<string>
    decreases |lines|
  {
    if lines == [] then []
    else
      var p := Parse(lines[0]);
      (if p.Some? && p.value.0 == key then [p.value.1] else []) + ValuesFor(key, lines[1..])
  }

  function FirstNonEmpty(vals: seq<string>): (r: string)
    ensures r == "" <==> forall i :: 0 <= i < |vals| ==> vals[i] == ""
    ensures r != "" ==> exists i :: 0 <= i < |vals| && vals[i] == r && forall j :: 0 <= j < i ==> vals[j] == ""
  {
    if vals == [] then ""
    else if vals[0] != "" then vals[0]
    else
      var r := FirstNonEmpty(vals[1..]);
      assert forall i :: 1 <= i < |vals| ==> vals[i] == vals[1..][i - 1];
      r
  }

  function Lookup(env: map<string, string>, key: string): Option<string>
  {
    if key in env then Some(env[key]) else None
  }

  /**
   * The value a variable ends with: a non-empty existing value stays; else
   * the first non-empty value the file gives it; else, when the file
   * defines it only as empty, the empty string.
   */
  function Winner(current: Option<string>, vals: seq<string>): Option<string>
  {
    if current.Some? && current.value != "" then current
    else if vals == [] then current
    else Some(FirstNonEmpty(vals))
  }

  lemma WinnerStep(current: Option<string>, vals: seq<string>)
    requires vals != []
    ensures Winner(current, vals)
      == Winner(if current.Some? && current.value != "" then current else Some(vals[0]), vals[1..])
  {
  }

  /** Loading the lines in order leaves every variable with its `Winner`. */
  lemma {:induction false} LoadAllWinner(env: map<string, string>, lines: seq<string>, key: string)
    ensures Lookup(LoadAll(env, lines), key) == Winner(Lookup(env, key), ValuesFor(key, lines))
    decreases |lines|
  {
    if lines != [] {
      var next := Apply(env, lines[0]);
      LoadAllWinner(next, lines[1..], key);
      var p := Parse(lines[0]);
      if p.Some? && p.value.0 == key {
        assert ValuesFor(key, lines) == [p.value.1] + ValuesFor(key, lines[1..]);
        WinnerStep(Lookup(env, key), ValuesFor(key, lines));
      } else {
        assert ValuesFor(key, lines) == ValuesFor(key, lines[1..]);
        assert Lookup(next, key) == Lookup(env, key);
      }
    }
  }

  /** A variable already set to a non-empty value is never overwritten. */
  lemma NonEmptyNeverOverwritten(env: map<string, string>, lines: seq<string>, key: string)
    requires key in env && env[key] != ""
    ensures key in LoadAll(env, lines) && LoadAll(env, lines)[key] == env[key]
  {
    LoadAllWinner(env, lines, key);
  }

  /** A variable no line defines keeps its state, set or not. */
  lemma UndefinedUntouched(env: map<string, string>, lines: seq<string>, key: string)
    requires ValuesFor(key, lines) == []
    ensures Lookup(LoadAll(env, lines), key) == Lookup(env, key)
  {
    LoadAllWinner(env, lines, key);
  }

  /** The process environment `loadEnvLocal` writes to. */
  class ProcessEnv {
    var vars: map<string, string>

    constructor (vars: map<string, string>)
      ensures this.vars == vars
    {
      this.vars := vars;
    }

    /** `loadEnvLocal`; `content` is `None` when `.env.local` does not exist, which changes nothing. */
    method LoadEnvLocal(content: Option<string>)
      modifies this`vars
      ensures content.None? ==> vars == old(vars)
      ensures content.Some? ==> vars == LoadAll(old(vars), Lines(content.value))
    {
      if content.None? {
        return;
      }
      var lines := Lines(content.value);
      ghost var start := vars;
      var i := 0;
      while i < |lines|
        invariant 0 <= i <= |lines|
        invariant LoadAll(start, lines) == LoadAll(vars, lines[i..])
      {
        assert lines[i..][1..] == lines[i + 1..];
        var m := Parse(lines[i]);
        if m.Some? {
          var (key, v) := m.value;
          if !(key in vars && vars[key] != "") {
            vars := vars[key := v];
          }
        }
        i := i + 1;
      }
    }
  }

  // ---------------------------------------------------------------------------
  // randStr
  // ---------------------------------------------------------------------------

  const Alphabet: string := "abcdefghijklmnopqrstuvwxyz0123456789"

  /** The string the draws spell: draw `i` is `Math.floor(Math.random() * 36)` for character `i`. */
  function Spell(draws: seq<nat>): (s: string)
    requires forall i :: 0 <= i < |draws| ==> draws[i] < |Alphabet|
    ensures |s| == |draws|
    ensures forall i :: 0 <= i < |s| ==> s[i] == Alphabet[draws[i]]
  {
    if draws == [] then "" else [Alphabet[draws[0]]] + Spell(draws[1..])
  }

  /** Every drawn character is a lower-case ASCII letter or a digit. */
  lemma SpellAlphabet(draws: seq<nat>)
    requires forall i :: 0 <= i < |draws| ==> draws[i] < |Alphabet|
    ensures forall i :: 0 <= i < |draws| ==> IsAsciiLower(Spell(draws)[i]) || IsDigit(Spell(draws)[i])
  {
    assert forall k :: 0 <= k < |Alphabet| ==> IsAsciiLower(Alphabet[k]) || IsDigit(Alphabet[k]);
  }

  /** `randStr(n)`: exactly `n` characters, one per draw, in draw order. */
  method RandStr(n: nat, draws: seq<nat>) returns (s: string)
    requires |draws| >= n
    requires forall i :: 0 <= i < |draws| ==> draws[i] < |Alphabet|
    ensures s == Spell(draws[..n])
  {
    s := "";
    while |s| < n
      invariant |s| <= n
      invariant s == Spell(draws[..|s|])
    {
      var k := |s|;
      assert draws[..k + 1] == draws[..k] + [draws[k]];
      s := s + [Alphabet[draws[k]]];
    }
  }

  // ---------------------------------------------------------------------------
  // Arguments and credentials
  // ---------------------------------------------------------------------------

  const Modes: set<string> := {"reply_client_only", "phase10", "phase11"}

  predicate Given(a: Option<string>) { a.Some? && a.value != "" }

  /**
   * The normalisation in `main`: a lone first argument that names a mode is
   * the mode, and there is then no e-mail; any other arguments stay put.
   */
  method NormalizeArgs(email: Option<string>, pass: Option<string>, mode: Option<string>)
    returns (email': Option<string>, mode': Option<string>)
    ensures Given(email) && !Given(pass) && email.value in Modes ==> email' == None && mode' == email
    ensures !(Given(email) && !Given(pass) && email.value in Modes) ==> email' == email && mode' == mode
  {
    email', mode' := email, mode;
    if Given(email) && !Given(pass) && email.value in Modes {
      mode' := email;
      email' := None;
    }
  }

  /** How `ensureCreds` ends. */
  datatype Creds =
    | FromArgs(email: string, password: string)
    | FromFile(saved: Json)
    | Created(email: string, password: string, username: string)
    | Exit(message: string)

  const NoAdmin: string :=
    "No hay SUPABASE_SERVICE_ROLE_KEY y no hay usuario guardado; proporciona email y password como argumentos."

  /**
   * `ensureCreds`: `saved` is the parsed `.smoke-user.json` (`None` when it
   * is missing or does not parse), `admin` whether the service key is set,
   * `createError` the `createUser` error, `draws` the random draws.
   */
  function EnsureCreds(email: Option<string>, pass: Option<string>, saved: Option<Json>, admin: bool,
                       createError: Option<string>, draws: seq<nat>): Creds
    requires |draws| >= 16 && forall i :: 0 <= i < |draws| ==> draws[i] < |Alphabet|
  {
    if Given(email) && Given(pass) then FromArgs(email.value, pass.value)
    else if saved.Some? && Truthy(Get(saved.value, "email")) && Truthy(Get(saved.value, "password"))
    then FromFile(saved.value)
    else if !admin then Exit(NoAdmin)
    else if createError.Some? then Exit("Error creando usuario: " + createError.value)
    else
      var username := "smoke_" + Spell(draws[..6]);
      Created(username + "@example.com", "Aa" + Spell(draws[6..16]) + "!", username)
  }

  /**
   * Explicit e-mail and password win; then a saved file with both fields;
   * then, with the service key, a new user `smoke_xxxxxx@example.com` whose
   * password is `Aa`, ten drawn characters and `!`.
   */
  lemma CredsPrecedence(email: Option<string>, pass: Option<string>, saved: Option<Json>, admin: bool,
                        createError: Option<string>, draws: seq<nat>)
    requires |draws| >= 16 && forall i :: 0 <= i < |draws| ==> draws[i] < |Alphabet|
    ensures var c := EnsureCreds(email, pass, saved, admin, createError, draws);
      var fromFile := saved.Some? && Truthy(Get(saved.value, "email")) && Truthy(Get(saved.value, "password"));
      && (Given(email) && Given(pass) <==> c.FromArgs?)
      && (c.FromFile? <==> !(Given(email) && Given(pass)) && fromFile)
      && (c.Exit? <==> !(Given(email) && Given(pass)) && !fromFile && (!admin || createError.Some?))
      && (c.Created? ==>
            && |c.password| == 13 && c.password[..2] == "Aa" && c.password[12] == '!'
            && c.email == c.username + "@example.com" && |c.username| == 12 && c.username[..6] == "smoke_")
  {
  }

  // ---------------------------------------------------------------------------
  // callChat
  // ---------------------------------------------------------------------------

  /** The request headers of `callChat`. */
  function Headers(token: string, reset: bool): map<string, string>
  {
    var base := map["Authorization" := "Bearer " + token, "Content-Type" := "application/json"];
    if reset then base["x-reset-session" := "true"] else base
  }

  /** `x-reset-session: true` is sent exactly when a reset is asked for; the other headers do not depend on it. */
  lemma ResetHeader(token: string, reset: bool)
    ensures "x-reset-session" in Headers(token, reset) <==> reset
    ensures reset ==> Headers(token, reset)["x-reset-session"] == "true"
    ensures Headers(token, reset)["Authorization"] == "Bearer " + token
    ensures Headers(token, reset)["Content-Type"] == "application/json"
    ensures Headers(token, true) - {"x-reset-session"} == Headers(token, false)
  {
  }

  /** How many chat calls a run makes, mode by mode, and whether each resets the session. */
  function ResetFlags(mode: Option<string>): seq<bool>
  {
    if mode == Some("reply_client_only") then [false]
    else if mode == Some("phase10") then [false, false]
    else if mode == Some("phase11") then [false]
    else [true] + seq(10, _ => false)
  }

  /** Only the first call of a full run resets the session; the three modes continue the existing one. */
  lemma OnlyFullRunResets(mode: Option<string>)
    ensures forall i :: 0 < i < |ResetFlags(mode)| ==> !ResetFlags(mode)[i]
    ensures ResetFlags(mode)[0] <==> mode.None? || mode.value !in Modes
  {
  }
}
