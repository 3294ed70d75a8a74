/** The source-id sanitiser: a rewriting loop, and the one-pass description it meets. */
module Sanitize {
  import opened Text

  predicate Kept(c: char) {
    'a' <= c <= 'z' || '0' <= c <= '9' || c == '-'
  }

  function Separator(c: char): char {
    if c in {' ', '_', '.', '/', '\\'} then '-' else c
  }

  function CleanChar(c: char): string {
    var d := Separator(Lower(c));
    if Kept(d) then [d] else []
  }

  /** Lower-cases, maps separators to dashes and drops every other character. */
  function Clean(s: string): string {
    if s == [] then [] else CleanChar(s[0]) + Clean(s[1..])
  }

  /** All fields between dashes, empty ones included. */
  function Split(s: string): (fields: seq<string>)
    ensures fields != []
  {
    if s == [] then [""]
    else if s[0] == '-' then [""] + Split(s[1..])
    else [[s[0]] + Split(s[1..])[0]] + Split(s[1..])[1..]
  }

  function NonEmpty(fields: seq<string>): (kept: seq<string>)
    ensures forall i | 0 <= i < |kept| :: kept[i] != "" && kept[i] in fields
  {
    if fields == [] then []
    else if fields[0] == "" then NonEmpty(fields[1..])
    else [fields[0]] + NonEmpty(fields[1..])
  }

  function Join(fields: seq<string>): string {
    if fields == [] then ""
    else if |fields| == 1 then fields[0]
    else fields[0] + "-" + Join(fields[1..])
  }

  /** The one-pass description: clean, split on dashes, drop empty fields, join. */
  function Sanitized(value: string): string {
    Join(NonEmpty(Split(Clean(value))))
  }

  /** No leading, trailing or doubled dash. */
  predicate Tidy(s: string) {
    && (s != [] ==> s[0] != '-' && s[|s| - 1] != '-')
    && !HasDouble(s)
  }

  predicate HasDouble(s: string) {
    exists i | 0 <= i < |s| - 1 :: s[i] == '-' && s[i + 1] == '-'
  }

  function TrimDashes(s: string): (t: string)
    ensures t != [] ==> t[0] != '-' && t[|t| - 1] != '-'
    decreases |s|
  {
    if s == [] then []
    else if s[0] == '-' then TrimDashes(s[1..])
    else if s[|s| - 1] == '-' then TrimDashes(s[..|s| - 1])
    else s
  }

  /** strings.ReplaceAll(s, "--", "-"): non-overlapping, left to right. */
  function Halve(s: string): (t: string)
    ensures |t| <= |s|
    ensures s != [] ==> t != [] && t[0] == s[0]
  {
    if |s| < 2 then s
    else if s[0] == '-' && s[1] == '-' then "-" + Halve(s[2..])
    else [s[0]] + Halve(s[1..])
  }

  lemma {:induction false} HalveShrinks(s: string)
    requires HasDouble(s)
    ensures |Halve(s)| < |s|
  {
    if !(s[0] == '-' && s[1] == '-') {
      var i :| 0 <= i < |s| - 1 && s[i] == '-' && s[i + 1] == '-';
      assert s[1..][i - 1] == '-' && s[1..][i] == '-';
      HalveShrinks(s[1..]);
    }
  }

  lemma {:induction false} HalveKeepsLast(s: string)
    requires s != []
    ensures Halve(s)[|Halve(s)| - 1] == s[|s| - 1]
  {
    if |s| >= 2 {
      if s[0] == '-' && s[1] == '-' {
        if |s| > 2 { HalveKeepsLast(s[2..]); }
      } else {
        HalveKeepsLast(s[1..]);
      }
    }
  }

  /** Halving changes neither the first field nor the non-empty fields after it. */
  lemma {:induction false} HalveKeepsFields(s: string)
    ensures Split(Halve(s))[0] == Split(s)[0]
    ensures NonEmpty(Split(Halve(s))[1..]) == NonEmpty(Split(s)[1..])
    ensures NonEmpty(Split(Halve(s))) == NonEmpty(Split(s))
    decreases |s|
  {
    if |s| >= 2 {
      if s[0] == '-' && s[1] == '-' {
        HalveKeepsFields(s[2..]);
        var t := "-" + Halve(s[2..]);
        assert t[1..] == Halve(s[2..]) && s[1..][1..] == s[2..];
      } else {
        HalveKeepsFields(s[1..]);
        assert ([s[0]] + Halve(s[1..]))[1..] == Halve(s[1..]);
      }
    }
  }

  lemma {:induction false} TrailingDash(s: string)
    ensures Split(s + "-") == Split(s) + [""]
  {
    if s != [] {
      TrailingDash(s[1..]);
      assert (s + "-")[1..] == s[1..] + "-";
      assert (Split(s[1..]) + [""])[1..] == Split(s[1..])[1..] + [""];
    }
  }

  lemma {:induction false} NonEmptyDropsLast(fields: seq<string>)
    ensures NonEmpty(fields + [""]) == NonEmpty(fields)
  {
    if fields != [] {
      NonEmptyDropsLast(fields[1..]);
      assert (fields + [""])[1..] == fields[1..] + [""];
    }
  }

  lemma {:induction false} TrimDashesKeepsFields(s: string)
    ensures NonEmpty(Split(TrimDashes(s))) == NonEmpty(Split(s))
    decreases |s|
  {
    if s == [] {
    } else if s[0] == '-' {
      TrimDashesKeepsFields(s[1..]);
    } else if s[|s| - 1] == '-' {
      var t := s[..|s| - 1];
      TrimDashesKeepsFields(t);
      assert s == t + "-";
      TrailingDash(t);
      NonEmptyDropsLast(Split(t));
    }
  }

  lemma {:induction false} CleanConcat(a: string, b: string)
    ensures Clean(a + b) == Clean(a) + Clean(b)
  {
    if a == [] {
      assert a + b == b;
    } else {
      assert (a + b)[0] == a[0] && (a + b)[1..] == a[1..] + b;
      CleanConcat(a[1..], b);
      assert CleanChar(a[0]) + (Clean(a[1..]) + Clean(b)) == Clean(a) + Clean(b);
    }
  }

  lemma SpaceCleans(c: char)
    requires IsSpace(c)
    ensures CleanChar(c) == "" || CleanChar(c) == "-"
  {
  }

  /** Dropping what a white-space character cleans to, at either end, keeps the fields. */
  lemma EndsKeepFields(s: string, d: string)
    requires d == "" || d == "-"
    ensures NonEmpty(Split(d + s)) == NonEmpty(Split(s)) == NonEmpty(Split(s + d))
  {
    if d == "" {
      assert d + s == s && s + d == s;
    } else {
      assert (d + s)[0] == '-' && (d + s)[1..] == s;
      assert Split(d + s)[1..] == Split(s);
      TrailingDash(s);
      NonEmptyDropsLast(Split(s));
    }
  }

  lemma LeadingSpaceKeepsFields(s: string)
    requires s != [] && IsSpace(s[0])
    ensures NonEmpty(Split(Clean(s))) == NonEmpty(Split(Clean(s[1..])))
  {
    SpaceCleans(s[0]);
    EndsKeepFields(Clean(s[1..]), CleanChar(s[0]));
  }

  lemma TrailingSpaceKeepsFields(t: string, c: char)
    requires IsSpace(c)
    ensures NonEmpty(Split(Clean(t + [c]))) == NonEmpty(Split(Clean(t)))
  {
    CleanConcat(t, [c]);
    assert Clean([c]) == CleanChar(c) by {
      assert [c][0] == c && [c][1..] == [];
      assert CleanChar(c) + [] == CleanChar(c);
    }
    SpaceCleans(c);
    EndsKeepFields(Clean(t), CleanChar(c));
  }

  /** Trimming white space first makes no difference to the non-empty fields. */
  lemma {:induction false} TrimSpaceKeepsFields(s: string)
    ensures NonEmpty(Split(Clean(TrimSpace(s)))) == NonEmpty(Split(Clean(s)))
    decreases |s|
  {
    if s == [] {
    } else if IsSpace(s[0]) {
      TrimSpaceKeepsFields(s[1..]);
      LeadingSpaceKeepsFields(s);
    } else if IsSpace(s[|s| - 1]) {
      var t, c := s[..|s| - 1], s[|s| - 1];
      assert s == t + [c];
      TrimSpaceKeepsFields(t);
      TrailingSpaceKeepsFields(t, c);
    }
  }

  lemma TidySuffix(s: string, k: nat)
    requires Tidy(s) && k < |s| && s[k] != '-'
    ensures Tidy(s[k..])
  {
  }

  lemma JoinGlue(c: char, f: string, rest: seq<string>)
    ensures Join([[c] + f] + rest) == [c] + Join([f] + rest)
  {
  }

  lemma FieldsAfterLetterDash(c: char, y: string)
    requires c != '-'
    ensures NonEmpty(Split([c] + "-" + y)) == [[c]] + NonEmpty(Split(y))
    ensures Split([c] + "-" + y)[0] == [c]
  {
    var s := [c] + "-" + y;
    assert s[0] == c && s[1..] == "-" + y && s[1..][0] == '-' && s[1..][1..] == y;
    assert Split(s[1..])[0] == "" && Split(s[1..])[1..] == Split(y);
    assert [c] + "" == [c];
    assert Split(s)[0] == [c] && Split(s)[1..] == Split(y);
  }

  lemma FieldsAfterLetter(c: char, x: string)
    requires c != '-' && Split(x)[0] != ""
    ensures Split([c] + x)[0] == [c] + Split(x)[0]
    ensures Join(NonEmpty(Split([c] + x))) == [c] + Join(NonEmpty(Split(x)))
  {
    var s := [c] + x;
    assert s[0] == c && s[1..] == x;
    var f, rest := Split(x)[0], NonEmpty(Split(x)[1..]);
    assert NonEmpty(Split(x)) == [f] + rest;
    assert Split(s)[0] == [c] + f && Split(s)[1..] == Split(x)[1..];
    assert NonEmpty(Split(s)) == [[c] + f] + rest;
    JoinGlue(c, f, rest);
  }

  lemma {:induction false} TidyIsJoined(s: string)
    requires Tidy(s) && s != []
    ensures Split(s)[0] != "" && Join(NonEmpty(Split(s))) == s
    ensures NonEmpty(Split(s)) != []
  {
    if |s| > 1 && s[1] == '-' {
      assert s[|s| - 1] != '-';
      assert !(s[1] == '-' && |s| > 2 && s[1 + 1] == '-');
      TidySuffix(s, 2);
      TidyIsJoined(s[2..]);
      assert s == [s[0]] + "-" + s[2..];
      FieldsAfterLetterDash(s[0], s[2..]);
      assert NonEmpty(Split(s))[1..] == NonEmpty(Split(s[2..]));
    } else if |s| > 1 {
      TidySuffix(s, 1);
      TidyIsJoined(s[1..]);
      assert s == [s[0]] + s[1..];
      FieldsAfterLetter(s[0], s[1..]);
    } else {
      assert s[1..] == [];
      assert Split(s)[0] == s && Split(s)[1..] == [];
    }
  }

  predicate DashFree(s: string) {
    forall i | 0 <= i < |s| :: s[i] != '-'
  }

  lemma {:induction false} SplitIsDashFree(s: string)
    ensures forall i | 0 <= i < |Split(s)| :: DashFree(Split(s)[i])
  {
    if s != [] { SplitIsDashFree(s[1..]); }
  }

  lemma {:induction false} JoinIsTidy(fields: seq<string>)
    requires forall i | 0 <= i < |fields| :: fields[i] != "" && DashFree(fields[i])
    ensures Tidy(Join(fields))
    ensures fields != [] ==> Join(fields) != ""
  {
    if |fields| > 1 {
      JoinIsTidy(fields[1..]);
      var f, r := fields[0], Join(fields[1..]);
      var s := f + "-" + r;
      forall i | 0 <= i < |s| - 1 ensures !(s[i] == '-' && s[i + 1] == '-') {
        if i > |f| { assert s[i] == r[i - |f| - 1] && s[i + 1] == r[i - |f|]; }
      }
    }
  }

  lemma {:induction false} CleanIsKept(s: string)
    ensures forall i | 0 <= i < |Clean(s)| :: Kept(Clean(s)[i])
  {
    if s != [] { CleanIsKept(s[1..]); }
  }

  lemma {:induction false} CleanOnKept(s: string)
    requires forall i | 0 <= i < |s| :: Kept(s[i])
    ensures Clean(s) == s
  {
    if s != [] {
      CleanOnKept(s[1..]);
      assert Kept(s[0]);
    }
  }

  lemma {:induction false} SplitIsKept(s: string)
    requires forall i | 0 <= i < |s| :: Kept(s[i])
    ensures forall f, i | f in Split(s) && 0 <= i < |f| :: Kept(f[i])
  {
    if s != [] { SplitIsKept(s[1..]); }
  }

  lemma {:induction false} JoinIsKept(fields: seq<string>)
    requires forall f, i | f in fields && 0 <= i < |f| :: Kept(f[i])
    ensures forall i | 0 <= i < |Join(fields)| :: Kept(Join(fields)[i])
  {
    if fields != [] { JoinIsKept(fields[1..]); }
  }

  /** A sanitised id is tidy and uses only lower-case letters, digits and dashes. */
  lemma SanitizedIsTidy(value: string)
    ensures Tidy(Sanitized(value))
    ensures forall i | 0 <= i < |Sanitized(value)| :: Kept(Sanitized(value)[i])
  {
    CleanIsKept(value);
    SplitIsKept(Clean(value));
    SplitIsDashFree(Clean(value));
    JoinIsTidy(NonEmpty(Split(Clean(value))));
    JoinIsKept(NonEmpty(Split(Clean(value))));
  }

  lemma SanitizedIdempotent(value: string)
    ensures Sanitized(Sanitized(value)) == Sanitized(value)
  {
    SanitizedIsTidy(value);
    CleanOnKept(Sanitized(value));
    if Sanitized(value) != "" { TidyIsJoined(Sanitized(value)); }
  }

  // ---- What an id is made of ----

  /** Two parts of an id, with a dash between them when neither is empty. */
  function Glued(a: string, b: string): string {
    if a == "" then b else if b == "" then a else a + "-" + b
  }

  lemma SplitHead(s: string)
    requires s != ""
    ensures Split(s) == if s[0] == '-' then [""] + Split(s[1..])
                        else [[s[0]] + Split(s[1..])[0]] + Split(s[1..])[1..]
  {
  }

  lemma FieldsGlue(h: string, p: seq<string>, q: seq<string>)
    requires p != []
    ensures (p + q)[0] == p[0]
    ensures [h] + (p + q) == ([h] + p) + q
    ensures [h] + (p + q)[1..] == ([h] + p[1..]) + q
  {
    assert (p + q)[1..] == p[1..] + q;
  }

  lemma {:induction false} SplitGlue(x: string, y: string)
    ensures Split(x + "-" + y) == Split(x) + Split(y)
  {
    var s := x + "-" + y;
    if x == "" {
      assert s[0] == '-' && s[1..] == y;
    } else {
      hide Split;
      var rest := Split(x[1..]);
      SplitGlue(x[1..], y);
      assert s[0] == x[0] && s[1..] == x[1..] + "-" + y;
      SplitHead(s);
      SplitHead(x);
      FieldsGlue(if x[0] == '-' then "" else [x[0]] + rest[0], rest, Split(y));
    }
  }

  lemma {:induction false} NonEmptyConcat(p: seq<string>, q: seq<string>)
    ensures NonEmpty(p + q) == NonEmpty(p) + NonEmpty(q)
  {
    if p == [] {
      assert p + q == q;
    } else {
      assert (p + q)[0] == p[0] && (p + q)[1..] == p[1..] + q;
      NonEmptyConcat(p[1..], q);
    }
  }

  lemma {:induction false} JoinConcat(p: seq<string>, q: seq<string>)
    requires (forall i | 0 <= i < |p| :: p[i] != "") && forall i | 0 <= i < |q| :: q[i] != ""
    ensures Join(p + q) == Glued(Join(p), Join(q))
    ensures p != [] ==> Join(p) != ""
  {
    if p == [] {
      assert p + q == q;
    } else {
      assert (p + q)[0] == p[0] && (p + q)[1..] == p[1..] + q;
      JoinConcat(p[1..], q);
    }
    if q != [] { assert |Join(q)| > 0; }
  }

  /** A separator ends one part of the id and begins the next. */
  lemma SeparatorsSplit(a: string, c: char, b: string)
    requires c in {' ', '_', '.', '/', '\\', '-'}
    ensures Sanitized(a + [c] + b) == Glued(Sanitized(a), Sanitized(b))
  {
    CleanAround(a, c, b);
    assert CleanChar(c) == "-";
    SplitGlue(Clean(a), Clean(b));
    NonEmptyConcat(Split(Clean(a)), Split(Clean(b)));
    JoinConcat(NonEmpty(Split(Clean(a))), NonEmpty(Split(Clean(b))));
  }

  /** A letter or a digit of ASCII, or one of the two other letters whose lower case is one. */
  predicate Plain(c: char) {
    'a' <= c <= 'z' || 'A' <= c <= 'Z' || '0' <= c <= '9' || c in {'\U{212A}', '\U{130}'}
  }

  /** Any other character that is no letter or digit is dropped. */
  lemma OthersDropped(a: string, c: char, b: string)
    requires c !in {' ', '_', '.', '/', '\\', '-'} && !Plain(c)
    ensures Sanitized(a + [c] + b) == Sanitized(a + b)
  {
    CleanAround(a, c, b);
    assert CleanChar(c) == "";
    CleanConcat(a, b);
    assert Clean(a) + "" == Clean(a);
  }

  lemma CleanAround(a: string, c: char, b: string)
    ensures Clean(a + [c] + b) == Clean(a) + CleanChar(c) + Clean(b)
  {
    CleanConcat(a + [c], b);
    CleanConcat(a, [c]);
    assert Clean([c]) == CleanChar(c) by {
      assert [c][0] == c && [c][1..] == [];
      assert CleanChar(c) + [] == CleanChar(c);
    }
  }

  /** The character as it stands in an id. */
  predicate StandsFor(c: char, d: char) {
    if 'A' <= c <= 'Z' then d as int == c as int + 32
    else if c == '\U{212A}' then d == 'k' else if c == '\U{130}' then d == 'i' else d == c
  }

  /** Letters and digits are kept, in lower case. */
  lemma WordsKept(w: string)
    requires forall i | 0 <= i < |w| :: Plain(w[i])
    ensures |Sanitized(w)| == |w| && forall i | 0 <= i < |w| :: StandsFor(w[i], Sanitized(w)[i])
  {
    CleanWord(w);
    if w != "" { TidyIsJoined(Clean(w)); }
  }

  lemma {:induction false} CleanWord(w: string)
    requires forall i | 0 <= i < |w| :: Plain(w[i])
    ensures |Clean(w)| == |w| && forall i | 0 <= i < |w| :: StandsFor(w[i], Clean(w)[i]) && Clean(w)[i] != '-'
  {
    if w != "" {
      assert Plain(w[0]);
      CleanWord(w[1..]);
      assert CleanChar(w[0]) == [Lower(w[0])];
    }
  }

  method SanitizeID(value: string) returns (id: string)
    ensures id == Sanitized(value)
  {
    var text := TrimSpace(value);
    var b := "";
    for i := 0 to |text|
      invariant b == Clean(text[..i])
    {
      var r := Separator(Lower(text[i]));
      assert text[..i + 1] == text[..i] + [text[i]];
      CleanConcat(text[..i], [text[i]]);
      assert [text[i]][1..] == [];
      if Kept(r) { b := b + [r]; }
    }
    assert text[..|text|] == text;
    id := TrimDashes(b);
    TrimDashesKeepsFields(b);
    TrimSpaceKeepsFields(value);
    while HasDouble(id)
      invariant id != "" ==> id[0] != '-' && id[|id| - 1] != '-'
      invariant NonEmpty(Split(id)) == NonEmpty(Split(Clean(value)))
      decreases |id|
    {
      HalveShrinks(id);
      HalveKeepsLast(id);
      HalveKeepsFields(id);
      id := Halve(id);
    }
    if id != "" { TidyIsJoined(id); }
  }
}
