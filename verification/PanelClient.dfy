/**
 The panel API client: cookie or token login, retries with backoff, one re-login, and the
 fallbacks to older endpoints. The panel is an arbitrary sequence of replies, one for every
 exchange; `trace` remembers what went over the wire.
 */
module PanelClient {
  import opened Common

  datatype Body = Html | Wrapped(success: bool, obj: nat) | Bare(payload: nat)

  datatype Reply = NoConnection | Response(status: int, body: Body) {
    /** Worth another try. */
    predicate Transient() {
      NoConnection? || status >= 500
    }
  }

  datatype Path =
    | InboundList | InboundListAlt
    | ClientAdd | ClientUpdate(email: string) | ClientDel(email: string)
    | LegacyAdd | LegacyUpdate(clientId: string) | LegacyDel(inbound: nat, client: string)

  datatype Event = LoginSent(answer: Reply) | Sent(path: Path, reply: Reply) | Waited(units: nat)

  datatype ApiError = AuthError | NetworkError | NotFoundError | PanelError

  datatype Config = Config(token: bool, username: bool, retries: int, panel: nat -> Reply) {
    function MaxRetries(): (n: nat)
      ensures n >= 1
    {
      if retries > 1 then retries else 1
    }
  }

  /** The client's session flag and the wire so far. */
  datatype Wire = Wire(loggedIn: bool, trace: seq<Event>) {
    function Add(e: Event): Wire {
      this.(trace := trace + [e])
    }
  }

  /** Only a successful cookie login sets the flag. */
  predicate Sane(cfg: Config, w: Wire) {
    w.loggedIn ==> cfg.username
  }

  function Exchanges(trace: seq<Event>): nat {
    if trace == [] then 0
    else Exchanges(trace[..|trace| - 1]) + (if trace[|trace| - 1].Waited? then 0 else 1)
  }

  function NextReply(cfg: Config, w: Wire): Reply {
    cfg.panel(Exchanges(w.trace))
  }

  function Pow2(n: nat): nat {
    if n == 0 then 1 else 2 * Pow2(n - 1)
  }

  // ---------------------------------------------------------------------------
  // What the calls mean
  // ---------------------------------------------------------------------------

  /** The error a login reply gives, if any. */
  function LoginVerdict(reply: Reply): Option<ApiError> {
    match reply
    case NoConnection => Some(NetworkError)
    case Response(status, body) => if status == 200 && body.Wrapped? && body.success then None else Some(AuthError)
  }

  function LoggingIn(cfg: Config, w: Wire): (Wire, Option<ApiError>) {
    if !cfg.username then (w, Some(AuthError))
    else
      var reply := NextReply(cfg, w);
      var after := w.Add(LoginSent(reply));
      if LoginVerdict(reply).None? then (after.(loggedIn := true), None) else (after, LoginVerdict(reply))
  }

  function Authenticating(cfg: Config, w: Wire): (Wire, Option<ApiError>) {
    if cfg.token || w.loggedIn then (w, None) else LoggingIn(cfg, w)
  }

  /** Sends until a reply is not transient, waiting twice as long every time. */
  function Sending(cfg: Config, w: Wire, path: Path, attempt: nat): (Wire, Result<Reply, ApiError>)
    requires attempt < cfg.MaxRetries()
    decreases cfg.MaxRetries() - attempt
  {
    var reply := NextReply(cfg, w);
    var after := w.Add(Sent(path, reply));
    if !reply.Transient() then (after, Ok(reply))
    else if attempt < cfg.MaxRetries() - 1 then Sending(cfg, after.Add(Waited(Pow2(attempt))), path, attempt + 1)
    else (after, Err(NetworkError))
  }

  /** What one reply to a request amounts to. */
  function Verdict(reply: Reply): Result<nat, ApiError> {
    if reply.Transient() then Err(NetworkError)
    else if reply.status == 401 then Err(AuthError)
    else if reply.status == 404 then Err(NotFoundError)
    else if reply.status != 200 then Err(PanelError)
    else
      match reply.body
      case Html => Err(PanelError)
      case Wrapped(success, obj) => if success then Ok(obj) else Err(PanelError)
      case Bare(payload) => Ok(payload)
  }

  /** A reply that may only mean that the cookie session ran out. */
  predicate SessionLost(reply: Reply) {
    reply.Response? && (reply.status == 401 || (reply.status == 200 && reply.body == Html))
  }

  function Requesting(cfg: Config, w: Wire, path: Path, relogin: bool): (Wire, Result<nat, ApiError>)
    decreases relogin
  {
    var (ready, refused) := Authenticating(cfg, w);
    if refused.Some? then (ready, Err(refused.value))
    else
      var (after, answer) := Sending(cfg, ready, path, 0);
      if answer.Err? then (after, Err(answer.error))
      else if SessionLost(answer.value) && !cfg.token && relogin then
        var (again, rejected) := LoggingIn(cfg, after.(loggedIn := false));
        if rejected.Some? then (again, Err(rejected.value)) else Requesting(cfg, again, path, false)
      else (after, Verdict(answer.value))
  }

  /** The newer endpoint first, the older one if the panel does not know it. */
  function Falling(cfg: Config, w: Wire, path: Path, legacy: Path): (Wire, Result<nat, ApiError>) {
    var (after, answer) := Requesting(cfg, w, path, true);
    if answer == Err(NotFoundError) then Requesting(cfg, after, legacy, true) else (after, answer)
  }

  // ---------------------------------------------------------------------------
  // The client in place
  // ---------------------------------------------------------------------------

  class SanaeiApiClient {
    const cfg: Config
    var loggedIn: bool
    var trace: seq<Event>

    constructor (cfg: Config)
      ensures this.cfg == cfg && Now() == Wire(false, []) && Sane(cfg, Now())
    {
      this.cfg, loggedIn, trace := cfg, false, [];
    }

    function Now(): Wire
      reads this
    {
      Wire(loggedIn, trace)
    }

    method Login() returns (error: Option<ApiError>)
      modifies this
      ensures (Now(), error) == LoggingIn(cfg, old(Now()))
    {
      if !cfg.username {
        return Some(AuthError);
      }
      var reply := cfg.panel(Exchanges(trace));
      trace := trace + [LoginSent(reply)];
      if reply.NoConnection? {
        return Some(NetworkError);
      }
      if reply.status != 200 || reply.body.Html? {
        return Some(AuthError);
      }
      if !(reply.body.Wrapped? && reply.body.success) {
        return Some(AuthError);
      }
      loggedIn := true;
      error := None;
    }

    method EnsureAuth() returns (error: Option<ApiError>)
      modifies this
      ensures (Now(), error) == Authenticating(cfg, old(Now()))
    {
      error := None;
      if cfg.token {
        return;
      }
      if !loggedIn {
        error := Login();
      }
    }

    method Send(path: Path) returns (r: Result<Reply, ApiError>)
      modifies `trace
      ensures (Now(), r) == Sending(cfg, old(Now()), path, 0)
      ensures r.Ok? ==> !r.value.Transient()
    {
      var attempt := 0;
      while true
        invariant attempt < cfg.MaxRetries()
        invariant Sending(cfg, Now(), path, attempt) == Sending(cfg, old(Now()), path, 0)
        decreases cfg.MaxRetries() - attempt
      {
        var reply := cfg.panel(Exchanges(trace));
        trace := trace + [Sent(path, reply)];
        if !reply.Transient() {
          return Ok(reply);
        }
        if attempt >= cfg.MaxRetries() - 1 {
          return Err(NetworkError);
        }
        trace := trace + [Waited(Pow2(attempt))];
        attempt := attempt + 1;
      }
    }

    method Request(path: Path, relogin: bool) returns (r: Result<nat, ApiError>)
      modifies this
      ensures (Now(), r) == Requesting(cfg, old(Now()), path, relogin)
      decreases relogin
    {
      hide Authenticating, LoggingIn, Sending;
      var refused := EnsureAuth();
      if refused.Some? {
        return Err(refused.value);
      }
      var answer := Send(path);
      if answer.Err? {
        return Err(answer.error);
      }
      var reply := answer.value;
      if reply.status == 401 {
        if cfg.token {
          return Err(AuthError);
        }
        if relogin {
          loggedIn := false;
          var rejected := Login();
          if rejected.Some? {
            return Err(rejected.value);
          }
          r := Request(path, false);
          return;
        }
        return Err(AuthError);
      }
      if reply.status == 404 {
        return Err(NotFoundError);
      }
      if reply.status != 200 {
        return Err(PanelError);
      }
      match reply.body
      case Html =>
        if !cfg.token && relogin {
          loggedIn := false;
          var rejected := Login();
          if rejected.Some? {
            return Err(rejected.value);
          }
          r := Request(path, false);
          return;
        }
        return Err(PanelError);
      case Wrapped(success, obj) =>
        return if success then Ok(obj) else Err(PanelError);
      case Bare(payload) =>
        return Ok(payload);
    }

    method ListInbounds() returns (r: Result<nat, ApiError>)
      modifies this
      ensures (Now(), r) == Falling(cfg, old(Now()), InboundList, InboundListAlt)
    {
      r := Request(InboundList, true);
      if r == Err(NotFoundError) {
        r := Request(InboundListAlt, true);
      }
    }

    method AddClient() returns (r: Result<nat, ApiError>)
      modifies this
      ensures (Now(), r) == Falling(cfg, old(Now()), ClientAdd, LegacyAdd)
    {
      r := Request(ClientAdd, true);
      if r == Err(NotFoundError) {
        r := Request(LegacyAdd, true);
      }
    }

    /** The older endpoint knows a client by its id, else its password, else its e-mail. */
    method UpdateClient(email: string, id: string, password: string) returns (r: Result<nat, ApiError>)
      modifies this
      ensures (Now(), r) == Falling(cfg, old(Now()), ClientUpdate(email),
                                    LegacyUpdate(if id != "" then id else if password != "" then password else email))
    {
      r := Request(ClientUpdate(email), true);
      if r == Err(NotFoundError) {
        var clientId := if id != "" then id else if password != "" then password else email;
        r := Request(LegacyUpdate(clientId), true);
      }
    }

    method DeleteClient(inbound: nat, email: string, id: string) returns (r: Result<nat, ApiError>)
      modifies this
      ensures var legacy := LegacyDel(inbound, if id != "" then id else email);
              (Now(), r) == Falling(cfg, old(Now()), ClientDel(email), legacy)
    {
      r := Request(ClientDel(email), true);
      if r == Err(NotFoundError) {
        r := Request(LegacyDel(inbound, if id != "" then id else email), true);
      }
    }
  }

  // ---------------------------------------------------------------------------
  // Bounds
  // ---------------------------------------------------------------------------

  /** How often something happened on the wire, waits counted in backoff units. */
  datatype Meter = Meter(logins: nat, sends: nat, waited: nat) {
    function Plus(e: Event): Meter {
      match e
      case LoginSent(_) => this.(logins := logins + 1)
      case Sent(_, _) => this.(sends := sends + 1)
      case Waited(units) => this.(waited := waited + units)
    }
  }

  function Read(trace: seq<Event>): Meter {
    if trace == [] then Meter(0, 0, 0) else Read(trace[..|trace| - 1]).Plus(trace[|trace| - 1])
  }

  lemma ReadGrows(w: Wire, e: Event)
    ensures Read(w.Add(e).trace) == Read(w.trace).Plus(e)
  {
    assert (w.trace + [e])[..|w.trace|] == w.trace;
  }

  predicate SentTo(e: Event, path: Path) {
    e.Sent? ==> e.path == path
  }

  /** The wire grew, and whatever was sent since went to `path`. */
  ghost predicate Grew(w: Wire, w': Wire, path: Path) {
    w.trace <= w'.trace && forall i :: |w.trace| <= i < |w'.trace| ==> SentTo(w'.trace[i], path)
  }

  lemma GrewTransitive(a: Wire, b: Wire, c: Wire, path: Path)
    requires Grew(a, b, path) && Grew(b, c, path)
    ensures Grew(a, c, path)
  {
    forall i | |a.trace| <= i < |c.trace|
      ensures SentTo(c.trace[i], path)
    {
      assert i < |b.trace| ==> c.trace[i] == b.trace[i];
    }
  }

  /** The waits between `s` sends, the first of which is attempt `attempt`. */
  function Backoff(attempt: nat, s: nat): nat
    decreases s
  {
    if s <= 1 then 0 else Pow2(attempt) + Backoff(attempt + 1, s - 1)
  }

  lemma {:induction false} BackoffClosedForm(attempt: nat, s: nat)
    requires s >= 1
    ensures Backoff(attempt, s) == Pow2(attempt + s - 1) - Pow2(attempt)
    decreases s
  {
    if s <= 1 {
    } else {
      BackoffClosedForm(attempt + 1, s - 1);
    }
  }

  /** Between the two states there were `s` sends, the backoff between them, and no login. */
  predicate Spent(w: Wire, after: Wire, s: nat, waited: nat) {
    Read(after.trace) == Read(w.trace).(sends := Read(w.trace).sends + s, waited := Read(w.trace).waited + waited)
  }

  /** From attempt `attempt` on, some number of sends is made, with exactly the backoff between them. */
  lemma {:induction false} SendMeters(cfg: Config, w: Wire, path: Path, attempt: nat) returns (s: nat)
    requires attempt < cfg.MaxRetries()
    ensures Spent(w, Sending(cfg, w, path, attempt).0, s, Backoff(attempt, s))
    ensures 1 <= s <= cfg.MaxRetries() - attempt
    ensures Sending(cfg, w, path, attempt).1.Err? ==> s == cfg.MaxRetries() - attempt
    decreases cfg.MaxRetries() - attempt
  {
    hide Sending, Read, Pow2;
    var last, waited := SendStep(cfg, w, path, attempt);
    if last {
      s := 1;
    } else {
      var more := SendMeters(cfg, waited, path, attempt + 1);
      s := more + 1;
    }
  }

  /** One attempt: it is the last one, or the next starts after one backoff. */
  lemma SendStep(cfg: Config, w: Wire, path: Path, attempt: nat) returns (last: bool, waited: Wire)
    requires attempt < cfg.MaxRetries()
    ensures var (after, r) := Sending(cfg, w, path, attempt);
            if last then
              && Spent(w, after, 1, 0)
              && (r.Err? ==> attempt == cfg.MaxRetries() - 1)
            else
              && attempt + 1 < cfg.MaxRetries()
              && Sending(cfg, waited, path, attempt + 1) == (after, r)
              && Spent(w, waited, 1, Pow2(attempt))
  {
    var reply := NextReply(cfg, w);
    var sent := w.Add(Sent(path, reply));
    last := !(reply.Transient() && attempt < cfg.MaxRetries() - 1);
    waited := sent.Add(Waited(Pow2(attempt)));
    hide Read, NextReply;
    ReadGrows(w, Sent(path, reply));
    ReadGrows(sent, Waited(Pow2(attempt)));
  }

  /** The last reply decides: a transient one is a network error, any other is the answer. */
  lemma {:induction false} SendAnswers(cfg: Config, w: Wire, path: Path, attempt: nat)
    requires attempt < cfg.MaxRetries()
    ensures var (after, r) := Sending(cfg, w, path, attempt);
            && Grew(w, after, path) && after.loggedIn == w.loggedIn
            && |after.trace| > |w.trace|
            && var last := after.trace[|after.trace| - 1];
               && last.Sent? && last.path == path
               && (if last.reply.Transient() then r == Err(NetworkError) else r == Ok(last.reply))
    decreases cfg.MaxRetries() - attempt
  {
    hide NextReply, Pow2;
    var reply := NextReply(cfg, w);
    var sent := w.Add(Sent(path, reply));
    if !reply.Transient() || attempt == cfg.MaxRetries() - 1 {
    } else {
      var waited := sent.Add(Waited(Pow2(attempt)));
      SendAnswers(cfg, waited, path, attempt + 1);
      GrewTransitive(w, waited, Sending(cfg, waited, path, attempt + 1).0, path);
    }
  }

  lemma {:induction false} Pow2Monotone(a: nat, b: nat)
    requires a <= b
    ensures 1 <= Pow2(a) <= Pow2(b)
  {
    if a < b {
      Pow2Monotone(a, b - 1);
    } else if a > 0 {
      Pow2Monotone(a - 1, a - 1);
    }
  }

  lemma PowOne()
    ensures Pow2(0) == 1
  {
  }

  /** One call to `_send` sends at most `max_retries` times and waits at most `2^(max_retries - 1) - 1` units. */
  lemma SendIsBounded(cfg: Config, w: Wire, path: Path)
    ensures var after := Sending(cfg, w, path, 0).0;
            && Read(w.trace).sends < Read(after.trace).sends <= Read(w.trace).sends + cfg.MaxRetries()
            && Read(after.trace).waited <= Read(w.trace).waited + Pow2(cfg.MaxRetries() - 1) - 1
            && Read(after.trace).logins == Read(w.trace).logins
  {
    hide Sending, Read, Pow2, Backoff;
    PowOne();
    var s := SendMeters(cfg, w, path, 0);
    BackoffClosedForm(0, s);
    Pow2Monotone(s - 1, cfg.MaxRetries() - 1);
  }

  lemma LoginBounds(cfg: Config, w: Wire, path: Path)
    requires Sane(cfg, w)
    ensures var (after, error) := LoggingIn(cfg, w);
            && Read(after.trace).logins <= Read(w.trace).logins + 1
            && Read(after.trace).sends == Read(w.trace).sends && Read(after.trace).waited == Read(w.trace).waited
            && Grew(w, after, path) && Sane(cfg, after)
            && (error.None? ==> after.loggedIn)
  {
    hide Read, NextReply;
    ReadGrows(w, LoginSent(NextReply(cfg, w)));
  }

  /**
   Against any panel, a request ends after at most two logins - none with a token, one if the
   session was open - and at most two rounds of `max_retries` sends, all to its own path.
   */
  lemma {:induction false} RequestBounds(cfg: Config, w: Wire, path: Path, relogin: bool)
    requires Sane(cfg, w)
    ensures var after := Requesting(cfg, w, path, relogin).0;
            var logins := if cfg.token then 0 else (if w.loggedIn then 0 else 1) + (if relogin then 1 else 0);
            var rounds := if relogin && !cfg.token then 2 else 1;
            && Read(after.trace).logins <= Read(w.trace).logins + logins
            && Read(after.trace).sends <= Read(w.trace).sends + rounds * cfg.MaxRetries()
            && Read(after.trace).waited <= Read(w.trace).waited + rounds * (Pow2(cfg.MaxRetries() - 1) - 1)
            && Grew(w, after, path) && Sane(cfg, after)
    decreases relogin
  {
    hide Read, LoggingIn, Sending, Grew, Pow2, SessionLost, Verdict;
    Pow2Monotone(0, cfg.MaxRetries() - 1);
    GrewReflexive(w, path);
    LoginBounds(cfg, w, path);
    var (ready, refused) := Authenticating(cfg, w);
    if refused.None? {
      var (sent, answer) := Sending(cfg, ready, path, 0);
      SendIsBounded(cfg, ready, path);
      SendAnswers(cfg, ready, path, 0);
      GrewTransitive(w, ready, sent, path);
      if answer.Ok? && SessionLost(answer.value) && !cfg.token && relogin {
        GrewIgnoresFlag(w, sent, path);
        var closed := sent.(loggedIn := false);
        LoginBounds(cfg, closed, path);
        var again := LoggingIn(cfg, closed).0;
        GrewTransitive(w, closed, again, path);
        if LoggingIn(cfg, closed).1.None? {
          RequestBounds(cfg, again, path, false);
          GrewTransitive(w, again, Requesting(cfg, again, path, false).0, path);
        }
      }
    }
  }

  lemma GrewReflexive(w: Wire, path: Path)
    ensures Grew(w, w, path)
  {
  }

  lemma GrewIgnoresFlag(w: Wire, after: Wire, path: Path)
    requires Grew(w, after, path)
    ensures Grew(w, after.(loggedIn := false), path)
  {
  }

  // ---------------------------------------------------------------------------
  // What an answer means
  // ---------------------------------------------------------------------------

  /** The answer is what the last reply on the wire says. */
  ghost predicate AnsweredByLast(w: Wire, after: Wire, path: Path, r: Result<nat, ApiError>) {
    if |after.trace| == |w.trace| then r == Err(AuthError)
    else
      |after.trace| > |w.trace| &&
      match after.trace[|after.trace| - 1]
      case Sent(p, reply) => p == path && r == Verdict(reply)
      case LoginSent(answer) => LoginVerdict(answer).Some? && r == Err(LoginVerdict(answer).value)
      case Waited(_) => false
  }

  /** However many retries and logins went before, the last reply decides, and nothing else does. */
  lemma {:induction false} AnswerIsLastReply(cfg: Config, w: Wire, path: Path, relogin: bool)
    requires Sane(cfg, w)
    ensures var (after, r) := Requesting(cfg, w, path, relogin);
            && AnsweredByLast(w, after, path, r)
            && (r.Ok? || r == Err(NotFoundError) ==> cfg.token || after.loggedIn)
    decreases relogin
  {
    hide Read, Sending, Pow2, NextReply;
    var (ready, refused) := Authenticating(cfg, w);
    if refused.None? {
      var (sent, answer) := Sending(cfg, ready, path, 0);
      SendAnswers(cfg, ready, path, 0);
      if answer.Ok? && SessionLost(answer.value) && !cfg.token && relogin {
        var (again, rejected) := LoggingIn(cfg, sent.(loggedIn := false));
        if rejected.None? {
          AnswerIsLastReply(cfg, again, path, false);
          RequestBounds(cfg, again, path, false);
          RequestSends(cfg, again, path);
        }
      }
    }
  }

  /** With a session open, a request reaches the panel. */
  lemma RequestSends(cfg: Config, w: Wire, path: Path)
    requires w.loggedIn
    ensures |Requesting(cfg, w, path, false).0.trace| > |w.trace|
  {
    SendAnswers(cfg, w, path, 0);
  }

  /**
   The older endpoint is only ever reached after the newer one answered 404: everything sent
   before that reply went to the newer path, everything after it to the older.
   */
  lemma LegacyOnlyAfter404(cfg: Config, w: Wire, path: Path, legacy: Path)
    requires Sane(cfg, w) && path != legacy
    ensures var after := Falling(cfg, w, path, legacy).0;
            && w.trace <= after.trace
            && forall i :: |w.trace| <= i < |after.trace| && after.trace[i].Sent? && after.trace[i].path == legacy ==>
                 exists k :: |w.trace| <= k < i && NotFoundReply(after.trace[k], path)
                   && (forall j :: |w.trace| <= j <= k ==> SentTo(after.trace[j], path))
                   && (forall j :: k < j < |after.trace| ==> SentTo(after.trace[j], legacy))
  {
    hide Requesting, Read;
    var (first, answer) := Requesting(cfg, w, path, true);
    RequestBounds(cfg, w, path, true);
    AnswerIsLastReply(cfg, w, path, true);
    if answer == Err(NotFoundError) {
      var after := Requesting(cfg, first, legacy, true).0;
      RequestBounds(cfg, first, legacy, true);
      var k := |first.trace| - 1;
      assert after.trace[..|first.trace|] == first.trace;
      assert NotFoundReply(after.trace[k], path);
      assert forall j :: |w.trace| <= j <= k ==> after.trace[j] == first.trace[j];
      assert forall j :: |w.trace| <= j <= k ==> SentTo(after.trace[j], path);
    }
  }

  predicate NotFoundReply(e: Event, path: Path) {
    e.Sent? && e.path == path && e.reply.Response? && e.reply.status == 404
  }

  /**
   With its fallback a call takes at most three logins and four rounds of sends and waits; with
   a token no login and two rounds.
   */
  lemma FallbackBounds(cfg: Config, w: Wire, path: Path, legacy: Path)
    requires Sane(cfg, w)
    ensures var after := Falling(cfg, w, path, legacy).0;
            var rounds := if cfg.token then 2 else 4;
            && Read(after.trace).logins <= Read(w.trace).logins + (if cfg.token then 0 else 3)
            && Read(after.trace).sends <= Read(w.trace).sends + rounds * cfg.MaxRetries()
            && Read(after.trace).waited <= Read(w.trace).waited + rounds * (Pow2(cfg.MaxRetries() - 1) - 1)
  {
    hide Requesting, Read, Pow2;
    PowOne();
    Pow2Monotone(0, cfg.MaxRetries() - 1);
    var (first, answer) := Requesting(cfg, w, path, true);
    RequestBounds(cfg, w, path, true);
    AnswerIsLastReply(cfg, w, path, true);
    if answer == Err(NotFoundError) {
      RequestBounds(cfg, first, legacy, true);
    }
  }

  // ---------------------------------------------------------------------------
  // What the replies decide
  // ---------------------------------------------------------------------------

  /** The panel has answered as often as there are logins and sends on the wire. */
  lemma {:induction false} ExchangesAreCounted(trace: seq<Event>)
    ensures Exchanges(trace) == |set i | 0 <= i < |trace| && (trace[i].LoginSent? || trace[i].Sent?)|
  {
    var all := set i | 0 <= i < |trace| && (trace[i].LoginSent? || trace[i].Sent?);
    if trace == [] {
      assert all == {};
    } else {
      var n := |trace| - 1;
      var rest := trace[..n];
      ExchangesAreCounted(rest);
      var earlier := set i | 0 <= i < |rest| && (rest[i].LoginSent? || rest[i].Sent?);
      match trace[n]
      case Waited(_) => assert all == earlier;
      case LoginSent(_) => assert all == earlier + {n};
      case Sent(_, _) => assert all == earlier + {n};
    }
  }

  /** No connection, or a server error. */
  predicate Unreached(reply: Reply) {
    match reply
    case NoConnection => true
    case Response(status, _) => 500 <= status
  }

  /** One try is made at least, and as many as the settings say. */
  lemma TriesMean(cfg: Config)
    ensures cfg.MaxRetries() == if cfg.retries < 1 then 1 else cfg.retries
  {
  }

  /** From reply `n` on, before number `end`, none got through. */
  ghost predicate NoneThrough(cfg: Config, n: nat, end: nat) {
    forall k: nat :: n <= k < end ==> Unreached(cfg.panel(k))
  }

  /** From reply `n` on, before number `end`, this is the first that got through. */
  ghost predicate FirstThrough(cfg: Config, n: nat, end: nat, reply: Reply) {
    exists k: nat :: n <= k < end && reply == cfg.panel(k) && !Unreached(reply) && NoneThrough(cfg, n, k)
  }

  lemma OneMoreUnreached(cfg: Config, n: nat, end: nat, reply: Reply)
    requires Unreached(cfg.panel(n)) && n < end
    ensures NoneThrough(cfg, n + 1, end) ==> NoneThrough(cfg, n, end)
    ensures FirstThrough(cfg, n + 1, end, reply) ==> FirstThrough(cfg, n, end, reply)
  {
    hide Unreached;
    if FirstThrough(cfg, n + 1, end, reply) {
      var k: nat :| n + 1 <= k < end && reply == cfg.panel(k) && !Unreached(reply) && NoneThrough(cfg, n + 1, k);
      assert NoneThrough(cfg, n, k);
    }
  }

  /** A send takes the first reply that got through, and gives up only when none of its tries did. */
  lemma {:induction false} SendingMeans(cfg: Config, w: Wire, path: Path, attempt: nat)
    requires attempt < cfg.MaxRetries()
    ensures var (after, r) := Sending(cfg, w, path, attempt);
            var n := Exchanges(w.trace);
            var end := n + cfg.MaxRetries() - attempt;
            && after.loggedIn == w.loggedIn
            && (r.Err? ==> r == Err(NetworkError) && NoneThrough(cfg, n, end))
            && (r.Ok? ==> FirstThrough(cfg, n, end, r.value))
    decreases cfg.MaxRetries() - attempt
  {
    hide Sending, Exchanges, Pow2, Unreached;
    var n := Exchanges(w.trace);
    var end := n + cfg.MaxRetries() - attempt;
    var reply := cfg.panel(n);
    OneTry(cfg, w, path, attempt);
    if !Unreached(reply) {
      assert NoneThrough(cfg, n, n);
    } else if attempt == cfg.MaxRetries() - 1 {
    } else {
      hide NoneThrough, FirstThrough;
      OneExchange(w, path, reply, Pow2(attempt));
      SendingMeans(cfg, w.Add(Sent(path, reply)).Add(Waited(Pow2(attempt))), path, attempt + 1);
      var r := Sending(cfg, w, path, attempt).1;
      OneMoreUnreached(cfg, n, end, if r.Ok? then r.value else reply);
    }
  }

  /** One try of a send ends it with a reply that got through, or if it was the last; else it waits and goes on. */
  lemma OneTry(cfg: Config, w: Wire, path: Path, attempt: nat)
    requires attempt < cfg.MaxRetries()
    ensures var reply := cfg.panel(Exchanges(w.trace));
            var sent := w.Add(Sent(path, reply));
            Sending(cfg, w, path, attempt) ==
            if !Unreached(reply) then (sent, Ok(reply))
            else if attempt == cfg.MaxRetries() - 1 then (sent, Err(NetworkError))
            else Sending(cfg, sent.Add(Waited(Pow2(attempt))), path, attempt + 1)
  {
    hide Exchanges, Pow2;
  }

  lemma OneExchange(w: Wire, path: Path, reply: Reply, units: nat)
    ensures Exchanges(w.Add(Sent(path, reply)).Add(Waited(units)).trace) == Exchanges(w.trace) + 1
  {
    var sent := w.trace + [Sent(path, reply)];
    assert sent[..|w.trace|] == w.trace;
    assert (sent + [Waited(units)])[..|sent|] == sent;
  }

  /** A login needs a user name; it succeeds exactly on a JSON success, and leaves one exchange on the wire. */
  lemma LoginMeans(cfg: Config, w: Wire)
    ensures var (after, error) := LoggingIn(cfg, w);
            var reply := cfg.panel(Exchanges(w.trace));
            && (!cfg.username ==> after == w && error == Some(AuthError))
            && (cfg.username ==>
                  && after.trace == w.trace + [LoginSent(reply)]
                  && (error.None? <==>
                        reply.Response? && reply.status == 200 && reply.body.Wrapped? && reply.body.success)
                  && (error.None? ==> after.loggedIn)
                  && (error.Some? ==> after.loggedIn == w.loggedIn)
                  && (error == Some(NetworkError) <==> reply.NoConnection?)
                  && (error.Some? && reply.Response? ==> error == Some(AuthError)))
  {
  }

  /** What a reply that got through says: only a 200 that is not a page and not a failure carries a result. */
  lemma VerdictMeans(reply: Reply)
    requires !Unreached(reply)
    ensures var r := Verdict(reply);
            && (r.Ok? <==> reply.status == 200 && (reply.body.Bare? || (reply.body.Wrapped? && reply.body.success)))
            && (r.Ok? ==> r.value == match reply.body case Wrapped(_, obj) => obj case Bare(payload) => payload)
            && (r == Err(AuthError) <==> reply.status == 401)
            && (r == Err(NotFoundError) <==> reply.status == 404)
            && r != Err(NetworkError)
  {
  }

  /**
   On an open session, or with a token, a request takes what its send brings: its verdict, or the
   network error. Only a lost cookie session makes it log in again and send once more, and then
   the second answer counts, whatever it is.
   */
  lemma RequestMeans(cfg: Config, w: Wire, path: Path, relogin: bool)
    requires cfg.token || w.loggedIn
    decreases relogin
    ensures var (after, r) := Requesting(cfg, w, path, relogin);
            var (sent, answer) := Sending(cfg, w, path, 0);
            var lost := answer.Ok? && answer.value.Response? && !cfg.token
                        && (answer.value.status == 401 || (answer.value.status == 200 && answer.value.body.Html?));
            && (answer.Err? ==> after == sent && r == Err(NetworkError))
            && (answer.Ok? && !(lost && relogin) ==> after == sent && r == Verdict(answer.value))
            && (lost && relogin ==>
                  && var (again, error) := LoggingIn(cfg, Wire(false, sent.trace));
                     if error.Some? then after == again && r == Err(error.value)
                     else
                       && var (second, last) := Sending(cfg, again, path, 0);
                          && after == second
                          && r == if last.Ok? then Verdict(last.value) else Err(NetworkError))
  {
    hide Verdict, LoginVerdict, NextReply;
    SendingMeans(cfg, w, path, 0);
    var (sent, answer) := Sending(cfg, w, path, 0);
    if answer.Ok? && SessionLost(answer.value) && !cfg.token && relogin {
      LoginMeans(cfg, sent.(loggedIn := false));
      var (again, error) := LoggingIn(cfg, sent.(loggedIn := false));
      if error.None? {
        RequestMeans(cfg, again, path, false);
        var (second, last) := Sending(cfg, again, path, 0);
        assert Requesting(cfg, w, path, true) == Requesting(cfg, again, path, false);
        assert Requesting(cfg, again, path, false).1 == if last.Ok? then Verdict(last.value) else Err(NetworkError);
      }
    }
    hide Sending, LoggingIn;
  }

  /** A 404 from the newer endpoint, and nothing else, sends the call on to the older one. */
  lemma FallbackMeans(cfg: Config, w: Wire, path: Path, legacy: Path)
    requires Sane(cfg, w)
    ensures var (first, answer) := Requesting(cfg, w, path, true);
            var (after, r) := Falling(cfg, w, path, legacy);
            && (answer != Err(NotFoundError) ==> (after, r) == (first, answer))
            && (answer == Err(NotFoundError) ==>
                  && (after, r) == Requesting(cfg, first, legacy, true)
                  && first.trace < after.trace
                  && after.trace[|first.trace|].Sent? && after.trace[|first.trace|].path == legacy)
  {
    var (first, answer) := Requesting(cfg, w, path, true);
    if answer == Err(NotFoundError) {
      RequestBounds(cfg, w, path, true);
      AnswerIsLastReply(cfg, w, path, true);
      assert cfg.token || first.loggedIn;
      FirstIsSent(cfg, first, legacy);
    }
    hide Requesting;
  }

  lemma {:induction false} SendingStarts(cfg: Config, w: Wire, path: Path, attempt: nat)
    requires attempt < cfg.MaxRetries()
    ensures var after := Sending(cfg, w, path, attempt).0;
            w.trace < after.trace && after.trace[|w.trace|] == Sent(path, NextReply(cfg, w))
    decreases cfg.MaxRetries() - attempt
  {
    hide NextReply, Pow2;
    var reply := NextReply(cfg, w);
    if !reply.Transient() || attempt == cfg.MaxRetries() - 1 {
    } else {
      SendingStarts(cfg, w.Add(Sent(path, reply)).Add(Waited(Pow2(attempt))), path, attempt + 1);
    }
  }

  lemma FirstIsSent(cfg: Config, w: Wire, path: Path)
    requires cfg.token || w.loggedIn
    ensures var after := Requesting(cfg, w, path, true).0;
            w.trace < after.trace && after.trace[|w.trace|].Sent? && after.trace[|w.trace|].path == path
  {
    var (sent, answer) := Sending(cfg, w, path, 0);
    SendingStarts(cfg, w, path, 0);
    RequestMeans(cfg, w, path, true);
    if answer.Ok? && SessionLost(answer.value) && !cfg.token {
      LoginMeans(cfg, Wire(false, sent.trace));
      SendingStarts(cfg, LoggingIn(cfg, Wire(false, sent.trace)).0, path, 0);
    }
    hide Sending, Requesting, Verdict, LoggingIn, NextReply;
  }
}
