/** What the admin forms come to, field by field. */
module Forms {
  import opened Config
  import opened Requests
  import opened Sanitize
  import opened Text
  import opened Wrappers

  // ---- Trimming ----

  /** t is what is left of s without its trailing slashes. */
  predicate WithoutSlashes(s: string, t: string) {
    t <= s && (t == "" || t[|t| - 1] != '/') && forall i | |t| <= i < |s| :: s[i] == '/'
  }

  lemma {:induction false} TrimSlashesMeaning(s: string)
    ensures WithoutSlashes(s, TrimSlashes(s))
  {
    if s != [] && s[|s| - 1] == '/' {
      TrimSlashesMeaning(s[..|s| - 1]);
      assert forall i | 0 <= i < |s| - 1 :: s[..|s| - 1][i] == s[i];
    }
  }

  /** Only white space is trimmed, and none is left at either end. */
  lemma {:induction false} TrimSpaceMeaning(s: string) returns (before: string, after: string)
    ensures s == before + TrimSpace(s) + after && Trimmed(TrimSpace(s))
    ensures forall i | 0 <= i < |before| :: IsSpace(before[i])
    ensures forall i | 0 <= i < |after| :: IsSpace(after[i])
    decreases |s|
  {
    if s == [] {
      before, after := [], [];
    } else if IsSpace(s[0]) {
      before, after := TrimSpaceMeaning(s[1..]);
      before := [s[0]] + before;
    } else if IsSpace(s[|s| - 1]) {
      before, after := TrimSpaceMeaning(s[..|s| - 1]);
      after := after + [s[|s| - 1]];
    } else {
      before, after := [], [];
    }
  }

  // ---- The server form ----

  function Distance(a: int, b: int): nat { if a < b then b - a else a - b }

  /** r is the value in the range that is closest to the one asked for. */
  ghost predicate Nearest(asked: int, low: int, high: int, r: int) {
    low <= r <= high && forall x | low <= x <= high :: Distance(asked, r) <= Distance(asked, x)
  }

  lemma ClampMeaning(value: int, low: int, high: int)
    requires low <= high
    ensures Nearest(value, low, high, Clamp(value, low, high))
  {
  }

  /** A server update is refused exactly for its intervals. */
  lemma ServerRefused(p: Pair, u: ServerUpdate)
    ensures ServerUpdated(p, u).Ok? <==> 5 <= u.poll <= u.stale
  {
  }

  /** What an accepted server update changes, and what it leaves alone. */
  lemma ServerTaken(p: Pair, u: ServerUpdate)
    requires ServerUpdated(p, u).Ok?
    ensures var q := ServerUpdated(p, u).value;
            && q.secrets.displayToken == (if TrimSpace(u.displayToken) != "" then TrimSpace(u.displayToken)
                                          else p.secrets.displayToken)
            && q.secrets.adminToken == (if TrimSpace(u.adminToken) != "" then TrimSpace(u.adminToken)
                                        else p.secrets.adminToken)
            && q.secrets.sourceTokens == p.secrets.sourceTokens
            && q.cfg.server.displayValue == TrimSpace(q.secrets.displayToken)
            && q.cfg.server.adminValue == TrimSpace(q.secrets.adminToken)
            && q.cfg.server.poll == u.poll && q.cfg.server.stale == u.stale
            && q.cfg.server.bind == p.cfg.server.bind && q.cfg.server.port == p.cfg.server.port
            && q.cfg.server.displayEnv == p.cfg.server.displayEnv && q.cfg.server.adminEnv == p.cfg.server.adminEnv
            && q.cfg.pinned == p.cfg.pinned
    ensures var t := ServerUpdated(p, u).value.cfg.alerts;
            && Nearest(u.memoryWarning, 1, 100, t.memoryWarning)
            && Nearest(u.memoryCritical, t.memoryWarning, 100, t.memoryCritical)
            && Nearest(u.storageWarning, 1, 100, t.storageWarning)
            && Nearest(u.storageCritical, t.storageWarning, 100, t.storageCritical)
    ensures var s, t := p.cfg.sources, ServerUpdated(p, u).value.cfg.sources;
            |t| == |s| && forall i | 0 <= i < |s| :: t[i] == s[i].(tokenValue := SavedOr(p.secrets, s[i]))
  {
    hide TrimSpace, Clamp;
    var t := ServerUpdated(p, u).value.cfg.alerts;
    ClampMeaning(u.memoryWarning, 1, 100);
    ClampMeaning(u.memoryCritical, t.memoryWarning, 100);
    ClampMeaning(u.storageWarning, 1, 100);
    ClampMeaning(u.storageCritical, t.storageWarning, 100);
  }

  /** The secret saved under the source's id, without white space, or the token it has. */
  function SavedOr(s: Secrets, h: ProxmoxHost): string {
    if h.id in s.sourceTokens && TrimSpace(s.sourceTokens[h.id]) != "" then TrimSpace(s.sourceTokens[h.id])
    else h.tokenValue
  }

  // ---- The source form ----

  /** The first source with the id; there is none when it is past the end. */
  predicate FirstWith(s: seq<ProxmoxHost>, id: string, i: nat) {
    && i <= |s| && (i < |s| ==> s[i].id == id)
    && forall j | 0 <= j < i :: s[j].id != id
  }

  /** The source that an upsert starts from. */
  function Existing(s: seq<ProxmoxHost>, i: nat): ProxmoxHost {
    if i < |s| then s[i] else ProxmoxHost("", "", "", "", "", Tls("", "", ""))
  }

  lemma FindFirst(s: seq<ProxmoxHost>, id: string) returns (i: nat)
    ensures FirstWith(s, id, i)
    ensures Find(s, id) == if i < |s| then Some(i) else None
  {
    i := match Find(s, id) case None => |s| case Some(i) => i;
  }

  /** The token of the form, or the one saved under the id. */
  function GivenOrSaved(s: Secrets, u: SourceUpdate, id: string): string {
    if TrimSpace(u.token) != "" then TrimSpace(u.token)
    else if id in s.sourceTokens then TrimSpace(s.sourceTokens[id]) else ""
  }

  lemma FormRefused(p: Pair, u: SourceUpdate, i: nat)
    requires FirstWith(p.cfg.sources, IDFor(u), i)
    ensures var existing := Existing(p.cfg.sources, i);
            SourceFrom(p, u).Err? <==>
              || IDFor(u) == ""
              || (existing.baseURL == "" && TrimSlashes(TrimSpace(u.baseURL)) == "")
              || (GivenOrSaved(p.secrets, u, IDFor(u)) == "" && existing.tokenEnv == "")
  {
    hide Sanitized, TrimSpace, TlsFor, TrimSlashes, Find;
    var k := FindFirst(p.cfg.sources, IDFor(u));
    assert k == i;
    assert Or(TrimSpace(u.token), SecretFor(p.secrets, IDFor(u))) == GivenOrSaved(p.secrets, u, IDFor(u));
  }

  /** A form is refused exactly when it names no source, or neither the form nor the existing source has a
      URL, or there is no token, given, saved or from the environment. */
  lemma SourceRefused(p: Pair, u: SourceUpdate) returns (i: nat)
    ensures FirstWith(p.cfg.sources, IDFor(u), i)
    ensures IDFor(u) == if Sanitized(u.id) != "" then Sanitized(u.id) else Sanitized(u.name)
    ensures var existing, url := Existing(p.cfg.sources, i), TrimSpace(u.baseURL);
            Upserted(p, u).Err? <==>
              || (Sanitized(u.id) == "" && Sanitized(u.name) == "")
              || (existing.baseURL == "" && forall k | 0 <= k < |url| :: url[k] == '/')
              || (GivenOrSaved(p.secrets, u, IDFor(u)) == "" && existing.tokenEnv == "")
  {
    hide Sanitized, TrimSpace, TrimSlashes, SourceFrom, Put, Finished, GivenOrSaved;
    i := FindFirst(p.cfg.sources, IDFor(u));
    FormRefused(p, u, i);
    NothingLeft(TrimSpace(u.baseURL));
  }

  lemma NothingLeft(s: string)
    ensures TrimSlashes(s) == "" <==> forall k | 0 <= k < |s| :: s[k] == '/'
  {
    TrimSlashesMeaning(s);
    var t := TrimSlashes(s);
    assert t != "" ==> t[|t| - 1] == s[|t| - 1];
  }

  /** What an upserted source says, by its form, the source it replaces, and the saved secrets. */
  ghost predicate TakesForm(h: ProxmoxHost, u: SourceUpdate, existing: ProxmoxHost, id: string, s: Secrets) {
    && h.id == id
    && h.name == (if TrimSpace(u.name) != "" then TrimSpace(u.name)
                  else if existing.name != "" then existing.name else id)
    && (exists url :: WithoutSlashes(TrimSpace(u.baseURL), url)
                      && h.baseURL == if url != "" then url else existing.baseURL)
    && h.tokenValue == GivenOrSaved(s, u, id)
    && h.tokenEnv == (if GivenOrSaved(s, u, id) != "" then "" else existing.tokenEnv)
    && h.tls.mode == (if TrimSpace(u.tlsMode) != "" then TrimSpace(u.tlsMode)
                      else if existing.tls.mode != "" then existing.tls.mode else "fingerprint")
    && h.tls.fingerprint == (if TrimSpace(u.fingerprint) != "" then TrimSpace(u.fingerprint)
                             else if u.tlsMode != "" then "" else existing.tls.fingerprint)
    && h.tls.caFile == (if TrimSpace(u.caFile) != "" then TrimSpace(u.caFile)
                        else if u.tlsMode != "" then "" else existing.tls.caFile)
  }

  lemma FormTaken(p: Pair, u: SourceUpdate, i: nat)
    requires SourceFrom(p, u).Ok? && FirstWith(p.cfg.sources, IDFor(u), i)
    ensures TakesForm(SourceFrom(p, u).value, u, Existing(p.cfg.sources, i), IDFor(u), p.secrets)
  {
    hide Sanitized, TrimSpace, TrimSlashes, Find;
    var k := FindFirst(p.cfg.sources, IDFor(u));
    assert k == i;
    TrimSlashesMeaning(TrimSpace(u.baseURL));
  }

  /** An accepted form takes the place of the first source with its id, or goes to the end; the other
      sources keep their places and everything but a token that a saved secret replaces. */
  lemma SourceTaken(p: Pair, u: SourceUpdate) returns (i: nat)
    requires Upserted(p, u).Ok?
    ensures FirstWith(p.cfg.sources, IDFor(u), i)
    ensures var s, q := p.cfg.sources, Upserted(p, u).value;
            && |q.cfg.sources| == (if i < |s| then |s| else |s| + 1)
            && TakesForm(q.cfg.sources[i], u, Existing(s, i), IDFor(u), p.secrets)
            && forall j | 0 <= j < |s| && j != i :: q.cfg.sources[j] == s[j].(tokenValue := SavedOr(q.secrets, s[j]))
    ensures var q := Upserted(p, u).value;
            && q.secrets == p.secrets.(sourceTokens := if TrimSpace(u.token) == "" then p.secrets.sourceTokens
                                       else p.secrets.sourceTokens[IDFor(u) := TrimSpace(u.token)])
            && q.cfg.alerts == p.cfg.alerts && q.cfg.pinned == p.cfg.pinned
            && q.cfg.server.poll == p.cfg.server.poll && q.cfg.server.stale == p.cfg.server.stale
  {
    hide Sanitized, TrimSpace, Find, SourceFrom, TakesForm;
    i := FindFirst(p.cfg.sources, IDFor(u));
    FormTaken(p, u, i);
    Named(p, u);
    var h, q := SourceFrom(p, u).value, Upserted(p, u).value;
    SecretStays(h, u, Existing(p.cfg.sources, i), IDFor(u), p.secrets, q.secrets);
    assert q.cfg.sources[i] == WithSecret(q.secrets)(h);
  }

  lemma Named(p: Pair, u: SourceUpdate)
    requires SourceFrom(p, u).Ok?
    ensures SourceFrom(p, u).value.id == IDFor(u)
  {
  }

  /** Writing the secrets in gives such a source the token that it has. */
  lemma SecretStays(h: ProxmoxHost, u: SourceUpdate, existing: ProxmoxHost, id: string, s: Secrets, t: Secrets)
    requires TakesForm(h, u, existing, id, s)
    requires t.sourceTokens == if TrimSpace(u.token) == "" then s.sourceTokens
                               else s.sourceTokens[id := TrimSpace(u.token)]
    ensures WithSecret(t)(h) == h
  {
    hide TrimSpace;
    assert TrimSpace(TrimSpace(u.token)) == TrimSpace(u.token);
  }

  // ---- Deletions ----

  /** A deletion drops the sources with the id and the secret saved under it, and nothing else. */
  lemma DeletionTaken(p: Pair, id: string)
    ensures Deleted(p, id).Ok? <==> Sanitized(id) != "" && exists h :: h in p.cfg.sources && h.id == Sanitized(id)
    ensures Deleted(p, id).Ok? ==>
              var q := Deleted(p, id).value;
              && q.secrets == p.secrets.(sourceTokens := p.secrets.sourceTokens - {Sanitized(id)})
              && (forall g :: g in p.cfg.sources && g.id != Sanitized(id) ==>
                    g.(tokenValue := SavedOr(q.secrets, g)) in q.cfg.sources)
              && (forall h :: h in q.cfg.sources ==>
                    exists g :: g in p.cfg.sources && g.id != Sanitized(id)
                                && h == g.(tokenValue := SavedOr(q.secrets, g)))
              && q.cfg.alerts == p.cfg.alerts && q.cfg.pinned == p.cfg.pinned
              && q.cfg.server.poll == p.cfg.server.poll && q.cfg.server.stale == p.cfg.server.stale
  {
    hide Sanitized, TrimSpace, Without;
    var clean := Sanitized(id);
    var i := FindFirst(p.cfg.sources, clean);
    if i < |p.cfg.sources| { assert p.cfg.sources[i] in p.cfg.sources; }
    WithoutMembers(p.cfg.sources, clean);
    if Deleted(p, id).Ok? {
      var left, q := Without(p.cfg.sources, clean), Deleted(p, id).value;
      forall g | g in p.cfg.sources && g.id != clean ensures g.(tokenValue := SavedOr(q.secrets, g)) in q.cfg.sources {
        var j :| 0 <= j < |left| && left[j] == g;
        assert q.cfg.sources[j] == WithSecret(q.secrets)(g);
      }
      forall h | h in q.cfg.sources
        ensures exists g :: g in p.cfg.sources && g.id != clean && h == g.(tokenValue := SavedOr(q.secrets, g))
      {
        var j :| 0 <= j < |q.cfg.sources| && q.cfg.sources[j] == h;
        assert h == WithSecret(q.secrets)(left[j]) && left[j] in left;
      }
    }
  }
}
