/** The configuration: defaults, validation, token lookups, and secrets written into it. A config is
    passed by value, but its sources live in an array that the copies share. */
module Config {
  import opened Folds
  import opened Health
  import opened Text
  import opened Wrappers

  datatype Tls = Tls(mode: string, fingerprint: string, caFile: string)

  datatype Server = Server(bind: string, port: int, displayEnv: string, displayValue: string,
                           adminEnv: string, adminValue: string, poll: int, stale: int)

  datatype ProxmoxHost = ProxmoxHost(id: string, name: string, baseURL: string,
                                     tokenEnv: string, tokenValue: string, tls: Tls)

  datatype Pinned = Pinned(source: string, id: string, caption: string, expected: string)

  datatype Config = Config(server: Server, sources: seq<ProxmoxHost>, alerts: Thresholds, pinned: seq<Pinned>)

  datatype Secrets = Secrets(adminToken: string, displayToken: string, sourceTokens: map<string, string>)

  /** A config as Go holds it: the sources are the first `len` elements of a shared array. */
  datatype Shared = Shared(server: Server, data: array<ProxmoxHost>, len: nat, alerts: Thresholds, pinned: seq<Pinned>)

  predicate Sound(c: Shared) {
    c.len <= c.data.Length
  }

  function Value(c: Shared): Config
    requires Sound(c)
    reads c.data
  {
    Config(c.server, c.data[..c.len], c.alerts, c.pinned)
  }

  /** What the bridge runs on in mock mode. */
  const MOCK_CONFIG := Config(Server("0.0.0.0", 8765, "DISPLAY_TOKEN", "", "ADMIN_TOKEN", "", 10, 45), [],
                              Thresholds(85, 95, 80, 90), [])

  // ---- Tokens and the environment ----

  function Getenv(env: map<string, string>, name: string): string {
    if name in env then env[name] else ""
  }

  function DisplayToken(s: Server, env: map<string, string>): string {
    if s.displayValue != "" then s.displayValue else Getenv(env, s.displayEnv)
  }

  function TokenOf(h: ProxmoxHost, env: map<string, string>): string {
    if h.tokenValue != "" then h.tokenValue else Getenv(env, h.tokenEnv)
  }

  const TOKEN_PREFIX := "PVEAPIToken="

  function NormalizeToken(token: string): string {
    if HasPrefix(TrimSpace(token), TOKEN_PREFIX) then TrimSpace(token) else TOKEN_PREFIX + TrimSpace(token)
  }

  // ---- Defaults ----

  function Or(s: string, fallback: string): string { if s == "" then fallback else s }

  function OrInt(n: int, fallback: int): int { if n == 0 then fallback else n }

  function DefaultSource(h: ProxmoxHost): ProxmoxHost {
    h.(tls := h.tls.(mode := Or(h.tls.mode, "fingerprint")))
  }

  function DefaultServer(s: Server): Server {
    s.(bind := Or(s.bind, "0.0.0.0"), port := OrInt(s.port, 8765),
       displayEnv := Or(s.displayEnv, "DISPLAY_TOKEN"), adminEnv := Or(s.adminEnv, "ADMIN_TOKEN"),
       poll := OrInt(s.poll, 10), stale := OrInt(s.stale, 45))
  }

  function DefaultThresholds(t: Thresholds): Thresholds {
    Thresholds(OrInt(t.memoryWarning, 85), OrInt(t.memoryCritical, 95),
               OrInt(t.storageWarning, 80), OrInt(t.storageCritical, 90))
  }

  function Defaulted(c: Config): Config {
    Config(DefaultServer(c.server), Map(c.sources, DefaultSource), DefaultThresholds(c.alerts), c.pinned)
  }

  /** The value is kept, or stands in for a gap. */
  predicate Fills<T(==)>(given: T, gap: T, default: T, filled: T) {
    filled == if given == gap then default else given
  }

  /** An empty config is filled up to the one that mock mode runs on, and any other config keeps what it
      says and takes the rest from there. */
  lemma DefaultsFillGaps(c: Config)
    ensures var d, m := Defaulted(c), MOCK_CONFIG;
            && Fills(c.server.bind, "", m.server.bind, d.server.bind)
            && Fills(c.server.port, 0, m.server.port, d.server.port)
            && Fills(c.server.displayEnv, "", m.server.displayEnv, d.server.displayEnv)
            && Fills(c.server.adminEnv, "", m.server.adminEnv, d.server.adminEnv)
            && Fills(c.server.poll, 0, m.server.poll, d.server.poll)
            && Fills(c.server.stale, 0, m.server.stale, d.server.stale)
            && Fills(c.alerts.memoryWarning, 0, m.alerts.memoryWarning, d.alerts.memoryWarning)
            && Fills(c.alerts.memoryCritical, 0, m.alerts.memoryCritical, d.alerts.memoryCritical)
            && Fills(c.alerts.storageWarning, 0, m.alerts.storageWarning, d.alerts.storageWarning)
            && Fills(c.alerts.storageCritical, 0, m.alerts.storageCritical, d.alerts.storageCritical)
            && d.pinned == c.pinned && |d.sources| == |c.sources|
            && d.server.displayValue == c.server.displayValue && d.server.adminValue == c.server.adminValue
    ensures forall i | 0 <= i < |c.sources| ::
              var h, g := c.sources[i], Defaulted(c).sources[i];
              g == h.(tls := h.tls.(mode := g.tls.mode)) && Fills(h.tls.mode, "", "fingerprint", g.tls.mode)
  {
  }

  /** Fills the struct fields of its copy, and the modes in the shared array. */
  method ApplyDefaults(c: Shared) returns (r: Shared)
    requires Sound(c)
    modifies c.data
    ensures r.data == c.data && r.len == c.len
    ensures Value(r) == Defaulted(old(Value(c)))
    ensures forall i | c.len <= i < c.data.Length :: c.data[i] == old(c.data[i])
  {
    r := c.(server := DefaultServer(c.server), alerts := DefaultThresholds(c.alerts));
    for i := 0 to c.len
      invariant forall j | 0 <= j < i :: c.data[j] == DefaultSource(old(c.data[j]))
      invariant forall j | i <= j < c.data.Length :: c.data[j] == old(c.data[j])
    {
      if c.data[i].tls.mode == "" {
        c.data[i] := c.data[i].(tls := c.data[i].tls.(mode := "fingerprint"));
      }
    }
    assert Value(r).sources == Map(old(Value(c)).sources, DefaultSource);
  }

  // ---- Secrets ----

  function SecretFor(s: Secrets, id: string): string {
    if id in s.sourceTokens then TrimSpace(s.sourceTokens[id]) else ""
  }

  function WithSecret(s: Secrets): ProxmoxHost -> ProxmoxHost {
    (h: ProxmoxHost) => if SecretFor(s, h.id) != "" then h.(tokenValue := SecretFor(s, h.id)) else h
  }

  function WithSecrets(c: Config, s: Secrets): Config {
    c.(server := c.server.(displayValue := TrimSpace(s.displayToken), adminValue := TrimSpace(s.adminToken)),
       sources := Map(c.sources, WithSecret(s)))
  }

  /** Writes the secrets into the config it is given, those of sources into the shared array. */
  method ApplySecrets(c: Shared, s: Secrets) returns (r: Shared)
    requires Sound(c)
    modifies c.data
    ensures r.data == c.data && r.len == c.len
    ensures Value(r) == WithSecrets(old(Value(c)), s)
    ensures forall i | c.len <= i < c.data.Length :: c.data[i] == old(c.data[i])
  {
    r := c.(server := c.server.(displayValue := TrimSpace(s.displayToken), adminValue := TrimSpace(s.adminToken)));
    for i := 0 to c.len
      invariant forall j | 0 <= j < i :: c.data[j] == WithSecret(s)(old(c.data[j]))
      invariant forall j | i <= j < c.data.Length :: c.data[j] == old(c.data[j])
    {
      var token := SecretFor(s, c.data[i].id);
      if token != "" {
        c.data[i] := c.data[i].(tokenValue := token);
      }
    }
    assert Value(r).sources == Map(old(Value(c)).sources, WithSecret(s));
  }

  function BlankSource(h: ProxmoxHost): ProxmoxHost {
    h.(tokenValue := "")
  }

  /** The config without its source tokens. */
  function BlankSources(c: Config): Config {
    c.(sources := Map(c.sources, BlankSource))
  }

  /** The config without any token. */
  function Blanked(c: Config): Config {
    BlankSources(c.(server := c.server.(displayValue := "", adminValue := "")))
  }

  // ---- Validation ----

  predicate TlsComplete(t: Tls) {
    || (t.mode == "fingerprint" && t.fingerprint != "")
    || (t.mode == "ca_file" && t.caFile != "")
    || t.mode == "system" || t.mode == "insecure"
  }

  predicate SourceComplete(h: ProxmoxHost, env: map<string, string>) {
    h.id != "" && h.name != "" && h.baseURL != "" && TokenOf(h, env) != "" && TlsComplete(h.tls)
    && (h.tokenValue != "" || h.tokenEnv != "")
  }

  predicate DistinctIDs(s: seq<ProxmoxHost>) {
    forall i, j | 0 <= i < j < |s| :: s[i].id != s[j].id
  }

  /** What Validate demands. */
  predicate ValidConfig(c: Config, env: map<string, string>, mock: bool) {
    && 1 <= c.server.port <= 65535
    && (mock || (DisplayToken(c.server, env) != "" && c.sources != []))
    && DistinctIDs(c.sources)
    && forall i | 0 <= i < |c.sources| :: SourceComplete(c.sources[i], env)
  }

  /** The checks on one source that come after its id has been looked at. */
  method ValidateSource(pve: ProxmoxHost, env: map<string, string>) returns (error: Option<string>)
    requires pve.id != ""
    ensures error.None? <==> SourceComplete(pve, env)
  {
    if pve.name == "" {
      return Some("name is required");
    }
    if pve.baseURL == "" {
      return Some("base_url is required");
    }
    if pve.tokenValue == "" && pve.tokenEnv == "" {
      return Some("token is required");
    }
    if pve.tokenValue == "" && Getenv(env, pve.tokenEnv) == "" {
      return Some("token env is empty");
    }
    if pve.tls.mode == "fingerprint" {
      return if pve.tls.fingerprint == "" then Some("tls.fingerprint is required for fingerprint mode") else None;
    } else if pve.tls.mode == "ca_file" {
      return if pve.tls.caFile == "" then Some("tls.ca_file is required for ca_file mode") else None;
    } else if pve.tls.mode != "system" && pve.tls.mode != "insecure" {
      return Some("unsupported tls.mode");
    }
    return None;
  }

  method ValidateSources(s: seq<ProxmoxHost>, env: map<string, string>) returns (error: Option<string>)
    ensures error.None? <==> DistinctIDs(s) && forall i | 0 <= i < |s| :: SourceComplete(s[i], env)
  {
    var seen: set<string> := {};
    for i := 0 to |s|
      invariant forall id :: id in seen <==> exists j | 0 <= j < i :: s[j].id == id
      invariant forall j, k | 0 <= j < k < i :: s[j].id != s[k].id
      invariant forall j | 0 <= j < i :: SourceComplete(s[j], env)
    {
      if s[i].id == "" {
        assert !SourceComplete(s[i], env);
        return Some("proxmox.id is required");
      }
      hide SourceComplete;
      if s[i].id in seen {
        return Some("duplicate proxmox.id");
      }
      seen := seen + {s[i].id};
      error := ValidateSource(s[i], env);
      if error.Some? {
        return;
      }
    }
    return None;
  }

  method Validate(c: Config, env: map<string, string>, mock: bool) returns (error: Option<string>)
    ensures error.None? <==> ValidConfig(c, env, mock)
  {
    hide SourceComplete, DistinctIDs;
    if c.server.port < 1 || c.server.port > 65535 {
      return Some("server.port must be between 1 and 65535");
    }
    if DisplayToken(c.server, env) == "" && !mock {
      return Some("display token is empty");
    }
    if !mock && |c.sources| == 0 {
      return Some("at least one proxmox entry is required");
    }
    error := ValidateSources(c.sources, env);
  }
}
