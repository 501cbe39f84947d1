/**
 * The `/probe` handler: the request guard, the cached or fresh session, the
 * three controller replies, the expired-session check, and the scrape that
 * fills a fresh registry. The network, the Base64 decoder and the XML
 * parser are parameters.
 */
module Probe {
  import opened Js
  import opened Scrape
  import opened Session
  import Extract
  import Airtime

  /** `req.query.target` and `req.headers.authorization`; `None` when absent. */
  datatype Request = Request(target: Option<string>, authorization: Option<string>)

  /** The bodies of the inventory, status and client replies. */
  datatype Bodies = Bodies(inventory: string, status: string, clients: string)

  /** The three bodies after the XML parser. */
  datatype Docs = Docs(inventory: Node, status: Node, clients: Node)

  /** The 401 challenge with its text body, or a status code with the exposition of the probe's registry. */
  datatype Response = Challenge | Reply(code: int, metrics: Registry)

  /** What a probe leaves behind: its response and the two process-wide stores. */
  datatype Outcome = Outcome(response: Response, sessions: map<string, Session>, air: Airtime.State)

  /** `req.headers.authorization || ""`. */
  function Header(req: Request): string {
    if req.authorization.Some? then req.authorization.value else ""
  }

  /** The guard: a non-empty target and a header that starts with `Basic `. */
  predicate Admitted(req: Request) {
    req.target.Some? && req.target.value != "" && "Basic " <= Header(req)
  }

  /** The registry of a probe that ends early: only the success gauge, at 0. */
  const Failed: Registry := map[Key(ScrapeSuccess, []) := Finite(0.0)]

  /** `s.includes(t)`. */
  predicate Includes(s: string, t: string)
    decreases |s|
  {
    |t| <= |s| && (s[..|t|] == t || Includes(s[1..], t))
  }

  lemma {:induction false} IncludesAt(s: string, t: string)
    ensures Includes(s, t) <==> exists i :: 0 <= i <= |s| - |t| && t <= s[i..]
    decreases |s|
  {
    if |t| <= |s| {
      if s[..|t|] == t {
        assert t <= s[0..];
      } else {
        IncludesAt(s[1..], t);
        if Includes(s[1..], t) {
          var i :| 0 <= i <= |s| - 1 - |t| && t <= s[1..][i..];
          assert s[1..][i..] == s[i + 1..];
        }
        if exists i :: 0 <= i <= |s| - |t| && t <= s[i..] {
          var i :| 0 <= i <= |s| - |t| && t <= s[i..];
          assert i != 0;
          assert s[1..][i - 1..] == s[i..];
        }
      }
    }
  }

  /** `parser.parse` of the three bodies in order; `None` when it throws. */
  function ParseAll(b: Bodies, parse: string -> Option<Node>): Option<Docs> {
    var inv := parse(b.inventory);
    var stat := parse(b.status);
    var cli := parse(b.clients);
    if inv.None? || stat.None? || cli.None? then None else Some(Docs(inv.value, stat.value, cli.value))
  }

  /** The apMap, the signal buckets, the status walk, then the totals or the 500 of a throw. */
  function Collected(d: Docs, air: Airtime.State): (Response, Airtime.State) {
    var apMap := Inventory(Extract.Found(d.inventory, "ap"));
    var reg := SignalCounts(apMap, Extract.Found(d.clients, "client"));
    var p := Status(apMap, Scan(reg, NoTotals, air), Extract.Found(d.status, "ap"));
    if p.Threw? then (Reply(500, p.scan.reg[Key(ScrapeSuccess, []) := Finite(0.0)]), p.scan.air)
    else (Reply(200, Finish(p.scan.reg, p.scan.totals)[Key(ScrapeSuccess, []) := Finite(1.0)]), p.scan.air)
  }

  /** The session a probe scrapes with: the cached one, else the login's. */
  function SessionFor(req: Request, sessions: map<string, Session>, decode: string -> string,
                      login: (string, Credentials) -> Option<LoginReplies>): Option<Session>
    requires Admitted(req)
  {
    var target := req.target.value;
    if target in sessions then Some(sessions[target])
    else LoginResult(login(target, CredentialsAsWritten(decode(BasicToken(Header(req))))))
  }

  /** One probe, from the stores it finds to the stores it leaves. */
  function Probe(req: Request, sessions: map<string, Session>, air: Airtime.State, decode: string -> string,
                 login: (string, Credentials) -> Option<LoginReplies>, fetch: (string, Session) -> Option<Bodies>,
                 parse: string -> Option<Node>): Outcome
  {
    if !Admitted(req) then Outcome(Challenge, sessions, air)
    else
      var target := req.target.value;
      var session := SessionFor(req, sessions, decode, login);
      if session.None? then Outcome(Reply(401, Failed), sessions, air)
      else
        var cache := sessions[target := session.value];
        var bodies := fetch(target, session.value);
        if bodies.None? then Outcome(Reply(500, Failed), cache, air)
        else if Includes(bodies.value.inventory, "login.jsp") then Outcome(Reply(500, Failed), cache - {target}, air)
        else
          var docs := ParseAll(bodies.value, parse);
          if docs.None? then Outcome(Reply(500, Failed), cache, air)
          else
            var (response, air') := Collected(docs.value, air);
            Outcome(response, cache, air')
  }

  // ---------------------------------------------------------------------
  // The handler

  /** From the parsed documents to the response, updating the airtime store. */
  method Collect(d: Docs, store: Airtime.Store) returns (response: Response)
    requires store.Valid()
    modifies store
    ensures store.Valid()
    ensures (response, store.Contents()) == Collected(d, old(store.Contents()))
  {
    var aps := Extract.FindAll(d.inventory, "ap");
    var apMap := BuildInventory(aps);
    var clients := Extract.FindAll(d.clients, "client");
    var reg := CountSignals(apMap, clients);
    var records := Extract.FindAll(d.status, "ap");
    var reg', totals, threw := ScanStatus(apMap, reg, records, store);
    if threw {
      response := Reply(500, reg'[Key(ScrapeSuccess, []) := Finite(0.0)]);
    } else {
      response := Reply(200, Finish(reg', totals)[Key(ScrapeSuccess, []) := Finite(1.0)]);
    }
  }

  /** `app.get("/probe", ...)`. */
  method Handle(req: Request, decode: string -> string, login: (string, Credentials) -> Option<LoginReplies>,
                fetch: (string, Session) -> Option<Bodies>, parse: string -> Option<Node>,
                cache: SessionCache, store: Airtime.Store)
    returns (response: Response)
    requires store.Valid()
    modifies cache, store
    ensures store.Valid()
    ensures var o := Probe(req, old(cache.sessions), old(store.Contents()), decode, login, fetch, parse);
      response == o.response && cache.sessions == o.sessions && store.Contents() == o.air
  {
    if !Admitted(req) {
      return Challenge;
    }
    var target := req.target.value;
    var creds := CredentialsAsWritten(decode(BasicToken(Header(req))));
    var session := cache.Cached(target);
    if session.None? {
      session := cache.Login(target, login(target, creds));
      if session.None? {
        return Reply(401, Failed);
      }
    } else {
      assert cache.sessions[target := session.value] == cache.sessions;
    }
    var bodies := fetch(target, session.value);
    if bodies.None? {
      return Reply(500, Failed);
    }
    if Includes(bodies.value.inventory, "login.jsp") {
      cache.Forget(target);
      return Reply(500, Failed);
    }
    var docs := ParseAll(bodies.value, parse);
    if docs.None? {
      return Reply(500, Failed);
    }
    response := Collect(docs.value, store);
  }

  // ---------------------------------------------------------------------
  // Properties of a probe

  /** A cached session is scraped with as it is: the login exchange is never consulted. */
  lemma CachedSessionSkipsLogin(req: Request, sessions: map<string, Session>, air: Airtime.State, decode: string -> string,
                                login1: (string, Credentials) -> Option<LoginReplies>,
                                login2: (string, Credentials) -> Option<LoginReplies>,
                                fetch: (string, Session) -> Option<Bodies>, parse: string -> Option<Node>)
    requires Admitted(req) && req.target.value in sessions
    ensures Probe(req, sessions, air, decode, login1, fetch, parse) == Probe(req, sessions, air, decode, login2, fetch, parse)
    ensures Probe(req, sessions, air, decode, login1, fetch, parse).response != Reply(401, Failed)
  {
  }

  /** A 401 with the failure gauge comes exactly from a cache miss whose login produced no session. */
  lemma LoginFailure(req: Request, sessions: map<string, Session>, air: Airtime.State, decode: string -> string,
                     login: (string, Credentials) -> Option<LoginReplies>, fetch: (string, Session) -> Option<Bodies>,
                     parse: string -> Option<Node>)
    ensures var o := Probe(req, sessions, air, decode, login, fetch, parse);
      o.response.Reply? && o.response.code == 401 <==>
        Admitted(req) && req.target.value !in sessions && SessionFor(req, sessions, decode, login).None?
    ensures var o := Probe(req, sessions, air, decode, login, fetch, parse);
      o.response.Reply? && o.response.code == 401 ==> o == Outcome(Reply(401, Failed), sessions, air)
  {
    ReplyCodes(req, sessions, air, decode, login, fetch, parse);
  }

  /** A probe's reply codes: 401 only from the login, 200 only from a completed walk. */
  lemma ReplyCodes(req: Request, sessions: map<string, Session>, air: Airtime.State, decode: string -> string,
                   login: (string, Credentials) -> Option<LoginReplies>, fetch: (string, Session) -> Option<Bodies>,
                   parse: string -> Option<Node>)
    ensures var o := Probe(req, sessions, air, decode, login, fetch, parse);
      o.response.Reply? ==> o.response.code == 401 || o.response.code == 500 || o.response.code == 200
    ensures var o := Probe(req, sessions, air, decode, login, fetch, parse);
      o.response.Reply? && o.response.code == 401 ==>
        Admitted(req) && req.target.value !in sessions && SessionFor(req, sessions, decode, login).None?
  {
    var o := Probe(req, sessions, air, decode, login, fetch, parse);
    if Admitted(req) && SessionFor(req, sessions, decode, login).Some? {
      var b := fetch(req.target.value, SessionFor(req, sessions, decode, login).value);
      if b.Some? && !Includes(b.value.inventory, "login.jsp") && ParseAll(b.value, parse).Some? {
        CollectedCodes(ParseAll(b.value, parse).value, air);
      }
    }
  }

  lemma CollectedCodes(d: Docs, air: Airtime.State)
    ensures Collected(d, air).0.Reply? && (Collected(d, air).0.code == 200 || Collected(d, air).0.code == 500)
  {
  }

  /** The cache gains an entry only for this target, and only from a login whose token page matched. */
  lemma SessionWrittenOnlyWithToken(req: Request, sessions: map<string, Session>, air: Airtime.State, decode: string -> string,
                                    login: (string, Credentials) -> Option<LoginReplies>, fetch: (string, Session) -> Option<Bodies>,
                                    parse: string -> Option<Node>, t: string)
    requires var o := Probe(req, sessions, air, decode, login, fetch, parse); t in o.sessions && t !in sessions
    ensures Admitted(req) && t == req.target.value
    ensures var o := Probe(req, sessions, air, decode, login, fetch, parse);
      var replies := login(t, CredentialsAsWritten(decode(BasicToken(Header(req)))));
      replies.Some? && Csrf(replies.value.tokenPage) == Some(o.sessions[t].csrfToken)
  {
    ProbeSessions(req, sessions, air, decode, login, fetch, parse);
  }

  /** No probe touches another target's session. */
  lemma OtherSessionsKept(req: Request, sessions: map<string, Session>, air: Airtime.State, decode: string -> string,
                          login: (string, Credentials) -> Option<LoginReplies>, fetch: (string, Session) -> Option<Bodies>,
                          parse: string -> Option<Node>, t: string)
    requires !Admitted(req) || t != req.target.value
    ensures var o := Probe(req, sessions, air, decode, login, fetch, parse);
      (t in o.sessions <==> t in sessions) && (t in sessions ==> o.sessions[t] == sessions[t])
  {
    ProbeSessions(req, sessions, air, decode, login, fetch, parse);
  }

  /** The session map a probe leaves, whatever its airtime walk does. */
  function SessionsAfter(req: Request, sessions: map<string, Session>, decode: string -> string,
                         login: (string, Credentials) -> Option<LoginReplies>, fetch: (string, Session) -> Option<Bodies>)
    : map<string, Session>
  {
    if !Admitted(req) then sessions
    else
      var target := req.target.value;
      var s := SessionFor(req, sessions, decode, login);
      if s.None? then sessions
      else
        var b := fetch(target, s.value);
        if b.Some? && Includes(b.value.inventory, "login.jsp") then sessions[target := s.value] - {target}
        else sessions[target := s.value]
  }

  lemma ProbeSessions(req: Request, sessions: map<string, Session>, air: Airtime.State, decode: string -> string,
                      login: (string, Credentials) -> Option<LoginReplies>, fetch: (string, Session) -> Option<Bodies>,
                      parse: string -> Option<Node>)
    ensures Probe(req, sessions, air, decode, login, fetch, parse).sessions == SessionsAfter(req, sessions, decode, login, fetch)
  {
  }

  /** An inventory reply that mentions `login.jsp` drops the target's session and fails the probe. */
  lemma ExpiredSessionForgotten(req: Request, sessions: map<string, Session>, air: Airtime.State, decode: string -> string,
                                login: (string, Credentials) -> Option<LoginReplies>, fetch: (string, Session) -> Option<Bodies>,
                                parse: string -> Option<Node>, i: nat)
    requires Admitted(req) && SessionFor(req, sessions, decode, login).Some?
    requires var b := fetch(req.target.value, SessionFor(req, sessions, decode, login).value);
      b.Some? && i + 9 <= |b.value.inventory| && "login.jsp" <= b.value.inventory[i..]
    ensures var o := Probe(req, sessions, air, decode, login, fetch, parse);
      o.response == Reply(500, Failed) && req.target.value !in o.sessions && o.air == air
  {
    var b := fetch(req.target.value, SessionFor(req, sessions, decode, login).value);
    IncludesAt(b.value.inventory, "login.jsp");
    Expired(req, sessions, air, decode, login, fetch, parse);
  }

  lemma Expired(req: Request, sessions: map<string, Session>, air: Airtime.State, decode: string -> string,
                login: (string, Credentials) -> Option<LoginReplies>, fetch: (string, Session) -> Option<Bodies>,
                parse: string -> Option<Node>)
    requires Admitted(req) && SessionFor(req, sessions, decode, login).Some?
    requires var b := fetch(req.target.value, SessionFor(req, sessions, decode, login).value);
      b.Some? && Includes(b.value.inventory, "login.jsp")
    ensures var o := Probe(req, sessions, air, decode, login, fetch, parse);
      o.response == Reply(500, Failed) && req.target.value !in o.sessions && o.air == air
  {
  }

  /** Every reply carries the success gauge: 1 on a 200, 0 otherwise. */
  lemma SuccessGauge(req: Request, sessions: map<string, Session>, air: Airtime.State, decode: string -> string,
                     login: (string, Credentials) -> Option<LoginReplies>, fetch: (string, Session) -> Option<Bodies>,
                     parse: string -> Option<Node>)
    ensures var r := Probe(req, sessions, air, decode, login, fetch, parse).response;
      r.Reply? ==> (Key(ScrapeSuccess, []) in r.metrics &&
        r.metrics[Key(ScrapeSuccess, [])] == if r.code == 200 then Finite(1.0) else Finite(0.0))
  {
    var r := Probe(req, sessions, air, decode, login, fetch, parse).response;
    if Admitted(req) && SessionFor(req, sessions, decode, login).Some? {
      var b := fetch(req.target.value, SessionFor(req, sessions, decode, login).value);
      if b.Some? && !Includes(b.value.inventory, "login.jsp") && ParseAll(b.value, parse).Some? {
        CollectedSuccess(ParseAll(b.value, parse).value, air);
      }
    }
  }

  lemma CollectedSuccess(d: Docs, air: Airtime.State)
    ensures var r := Collected(d, air).0;
      r.Reply? && Key(ScrapeSuccess, []) in r.metrics &&
      r.metrics[Key(ScrapeSuccess, [])] == if r.code == 200 then Finite(1.0) else Finite(0.0)
  {
  }

  /** The airtime store moves only when the walk over the status records runs. */
  lemma AirtimeOnlyFromWalk(req: Request, sessions: map<string, Session>, air: Airtime.State, decode: string -> string,
                            login: (string, Credentials) -> Option<LoginReplies>, fetch: (string, Session) -> Option<Bodies>,
                            parse: string -> Option<Node>)
    ensures var o := Probe(req, sessions, air, decode, login, fetch, parse);
      o.air != air ==>
        Admitted(req) && SessionFor(req, sessions, decode, login).Some? &&
        var b := fetch(req.target.value, SessionFor(req, sessions, decode, login).value);
        b.Some? && !Includes(b.value.inventory, "login.jsp") && ParseAll(b.value, parse).Some? &&
        o.air == Collected(ParseAll(b.value, parse).value, air).1
  {
  }

  /**
   * After a completed walk the AP total counts the status records with a
   * truthy MAC, and the master and member role counts add up to it.
   */
  lemma CompletedTotals(d: Docs, air: Airtime.State)
    requires Collected(d, air).0.code == 200
    ensures var m := Collected(d, air).0.metrics;
      var recs := Extract.Found(d.status, "ap");
      var n := |set i | 0 <= i < |recs| && Truthy(StatusMac(recs[i]))|;
      Key(TotalAps, []) in m && m[Key(TotalAps, [])] == Finite(n as real) &&
      Key(ApRoleCount, [("role", "master")]) in m && Key(ApRoleCount, [("role", "member")]) in m &&
      m[Key(ApRoleCount, [("role", "master")])].Finite? && m[Key(ApRoleCount, [("role", "member")])].Finite? &&
      m[Key(ApRoleCount, [("role", "master")])].r + m[Key(ApRoleCount, [("role", "member")])].r == n as real
  {
    var apMap := Inventory(Extract.Found(d.inventory, "ap"));
    var reg := SignalCounts(apMap, Extract.Found(d.clients, "client"));
    var recs := Extract.Found(d.status, "ap");
    var s0 := Scan(reg, NoTotals, air);
    CompletedWalkCounts(apMap, s0, recs);
    var t := Status(apMap, s0, recs).scan.totals;
    FinishTotals(Status(apMap, s0, recs).scan.reg, t);
  }

  /**
   * A probe that answers 200 reports as each network total the in-order `Add`
   * of the clients, RX or TX amounts of the status records with a truthy MAC.
   */
  lemma CompletedSums(d: Docs, air: Airtime.State, q: Quantity)
    requires Collected(d, air).0.code == 200
    ensures var m := Collected(d, air).0.metrics;
      Key(TotalGauge(q), []) in m && m[Key(TotalGauge(q), [])] == MacSum(AmountOf(q), Extract.Found(d.status, "ap"))
  {
    var apMap := Inventory(Extract.Found(d.inventory, "ap"));
    var reg := SignalCounts(apMap, Extract.Found(d.clients, "client"));
    var recs := Extract.Found(d.status, "ap");
    var s0 := Scan(reg, NoTotals, air);
    CompletedWalkSums(apMap, s0, recs, q);
    FinishTotals(Status(apMap, s0, recs).scan.reg, Status(apMap, s0, recs).scan.totals);
  }
}
