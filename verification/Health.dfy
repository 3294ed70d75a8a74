/** Health values, their severity, and the thresholds of alerts. */
module Health {
  import opened Text

  datatype Health = OK | Warning | Critical | Unknown

  /** The alert thresholds, in percent. */
  datatype Thresholds = Thresholds(memoryWarning: int, memoryCritical: int, storageWarning: int, storageCritical: int)

  function SeverityRank(h: Health): nat {
    match h
    case Critical => 3
    case Warning => 2
    case OK => 1
    case Unknown => 0
  }

  function MaxHealth(a: Health, b: Health): (m: Health)
    ensures m == a || m == b
    ensures SeverityRank(m) >= SeverityRank(a) && SeverityRank(m) >= SeverityRank(b)
  {
    if SeverityRank(b) > SeverityRank(a) then b else a
  }

  predicate Contains(s: string, part: string) {
    exists i | 0 <= i <= |s| :: part <= s[i..]
  }

  function LowerAll(s: string): string {
    if s == [] then [] else [Lower(s[0])] + LowerAll(s[1..])
  }

  function HealthFromText(value: string): Health {
    var text := LowerAll(TrimSpace(value));
    if text == "" || text == "unknown" then Unknown
    else if Contains(text, "online") || Contains(text, "active") || Contains(text, "ok")
            || Contains(text, "pass") || Contains(text, "healthy") then OK
    else if Contains(text, "degraded") || Contains(text, "warn") then Warning
    else if Contains(text, "fault") || Contains(text, "fail") || Contains(text, "error")
            || Contains(text, "critical") || Contains(text, "offline") then Critical
    else Unknown
  }

  lemma Lacks(s: string, part: string, c: char)
    requires c in part && c !in s
    ensures !Contains(s, part)
  {
    forall i | 0 <= i <= |s| ensures !(part <= s[i..]) {
      assert c !in s[i..];
    }
  }

  lemma Has(s: string, part: string, i: nat)
    requires i <= |s| && part <= s[i..]
    ensures Contains(s, part)
  {
  }

  /** None of the words for a good state is in the text. */
  predicate NoneGood(s: string) {
    && !Contains(s, "online") && !Contains(s, "active") && !Contains(s, "ok") && !Contains(s, "pass")
    && !Contains(s, "healthy")
  }

  predicate NoneDegraded(s: string) {
    !Contains(s, "degraded") && !Contains(s, "warn")
  }

  predicate NoneBad(s: string) {
    && !Contains(s, "fault") && !Contains(s, "fail") && !Contains(s, "error") && !Contains(s, "critical")
    && !Contains(s, "offline")
  }

  lemma NoGoodWord(s: string)
    requires 'c' !in s && 'k' !in s && 'h' !in s && ('p' !in s || 'a' !in s) && !Contains(s, "online")
    ensures NoneGood(s)
  {
    Lacks(s, "active", 'c');
    Lacks(s, "ok", 'k');
    Lacks(s, "healthy", 'h');
    if 'p' !in s { Lacks(s, "pass", 'p'); } else { Lacks(s, "pass", 'a'); }
  }

  lemma NoDegradedWord(s: string)
    requires 'g' !in s && 'w' !in s
    ensures NoneDegraded(s)
  {
    Lacks(s, "degraded", 'g');
    Lacks(s, "warn", 'w');
  }

  lemma NoBadWord(s: string)
    requires 'f' !in s && 'r' !in s && 'c' !in s
    ensures NoneBad(s)
  {
    Lacks(s, "fault", 'f');
    Lacks(s, "fail", 'f');
    Lacks(s, "error", 'r');
    Lacks(s, "critical", 'c');
    Lacks(s, "offline", 'f');
  }

  lemma GoodTexts()
    ensures Contains("online", "online") && Contains("healthy", "healthy") && Contains("unhealthy", "healthy")
  {
    Has("online", "online", 0);
    Has("healthy", "healthy", 0);
    Has("unhealthy", "healthy", 2);
  }

  lemma Degraded()
    ensures NoneGood("degraded") && Contains("degraded", "degraded")
  {
    hide Contains;
    Has("degraded", "degraded", 0);
    Lacks("degraded", "online", 'o');
    NoGoodWord("degraded");
  }

  lemma Faulted()
    ensures NoneGood("faulted") && NoneDegraded("faulted") && Contains("faulted", "fault")
  {
    hide Contains;
    FaultedSaysFault();
    NothingElseInFaulted("faulted");
  }

  lemma FaultedSaysFault()
    ensures Contains("faulted", "fault")
  {
    Has("faulted", "fault", 0);
  }

  lemma NothingElseInFaulted(s: string)
    requires s == "faulted"
    ensures NoneGood(s) && NoneDegraded(s)
  {
    hide Contains;
    Lacks(s, "online", 'o');
    NoGoodWord(s);
    NoDegradedWord(s);
  }

  lemma OfflineIsNotOnline()
    ensures !Contains("offline", "online")
  {
    var s := "offline";
    assert "online"[0] == 'o' && "online"[1] == 'n';
    forall i | 0 <= i <= 7 ensures !("online" <= s[i..]) {
      if i == 0 { assert s[0..][1] == 'f'; } else if i == 1 { assert s[1..][0] == 'f'; }
    }
  }

  lemma Offline()
    ensures NoneGood("offline") && NoneDegraded("offline") && Contains("offline", "offline")
  {
    hide Contains;
    Has("offline", "offline", 0);
    OfflineIsNotOnline();
    NoGoodWord("offline");
    NoDegradedWord("offline");
  }

  /** The states that say nothing to the bridge. */
  lemma Unrecognized(s: string)
    requires s in {"unavail", "suspended"}
    ensures NoneGood(s) && NoneDegraded(s) && NoneBad(s)
  {
    hide Contains;
    Lacks(s, "online", 'o');
    NoGoodWord(s);
    NoDegradedWord(s);
    NoBadWord(s);
  }

  /** The levels of the states that a pool can be in, whatever their case and the white space around them.
      A pool that is unavailable or suspended is not recognized as unhealthy, and a text that says
      "unhealthy" counts as good. */
  lemma StateLevels(value: string)
    ensures var text := LowerAll(TrimSpace(value));
            && (text in {"online", "healthy", "unhealthy"} ==> HealthFromText(value) == OK)
            && (text == "degraded" ==> HealthFromText(value) == Warning)
            && (text in {"faulted", "offline"} ==> HealthFromText(value) == Critical)
            && (text in {"", "unknown", "unavail", "suspended"} ==> HealthFromText(value) == Unknown)
  {
    hide Contains, LowerAll;
    GoodTexts();
    Degraded();
    Faulted();
    Offline();
    Unrecognized("unavail");
    Unrecognized("suspended");
  }
}
