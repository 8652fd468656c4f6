// Subject routing (crates/ehdb-feed/src/subject.rs).

module Subjects {
  type Subject = seq<string>
  type Filter = seq<string>

  const TOKEN_WILDCARD := "*"
  const TAIL_WILDCARD := ">"

  /** `Subject::as_str`: tokens joined by dots. */
  function Name(s: Subject): string {
    if s == [] then "" else if |s| == 1 then s[0] else s[0] + "." + Name(s[1..])
  }

  predicate TokenMatches(f: string, t: string) { f == TOKEN_WILDCARD || f == t }

  ghost predicate TokensMatch(f: Filter, s: Subject, n: nat)
    requires n <= |f| && n <= |s|
  {
    forall i | 0 <= i < n :: f[i] != TAIL_WILDCARD && TokenMatches(f[i], s[i])
  }

  /** Either a token-for-token match, or a match up to a final `>` that stands for at
      least one further token. A `>` anywhere else matches nothing. */
  ghost predicate Matches(f: Filter, s: Subject) {
    || (|f| == |s| && TokensMatch(f, s, |f|))
    || (|f| > 0 && f[|f| - 1] == TAIL_WILDCARD && |s| >= |f| && TokensMatch(f, s, |f| - 1))
  }

  method DoesMatch(f: Filter, s: Subject) returns (r: bool)
    ensures r <==> Matches(f, s)
  {
    var i := 0;
    while i < |f|
      invariant i <= |f| && i <= |s| && TokensMatch(f, s, i)
    {
      if f[i] == TAIL_WILDCARD { return i + 1 == |f| && i < |s|; }
      if i >= |s| { return false; }
      if f[i] != TOKEN_WILDCARD && f[i] != s[i] { return false; }
      i := i + 1;
    }
    return i == |s|;
  }

  /** `>` alone subscribes to every subject that has a token. */
  lemma {:induction false} AllMatches(s: Subject)
    ensures Matches([TAIL_WILDCARD], s) <==> s != []
  { }

  lemma {:induction false} LiteralHeld(f: Filter, s: Subject, i: nat)
    requires i < |f| && f[i] !in {TOKEN_WILDCARD, TAIL_WILDCARD}
    ensures Matches(f, s) ==> i < |s| && s[i] == f[i]
  { }

  /** Two filters that differ in a literal token at one position share no subject, so the
      pools and shards of `commands.<pool>.shard.<n>` are isolated from each other. */
  lemma {:induction false} LiteralsIsolate(f: Filter, g: Filter, s: Subject, i: nat)
    requires i < |f| && i < |g| && f[i] != g[i]
    requires f[i] !in {TOKEN_WILDCARD, TAIL_WILDCARD} && g[i] !in {TOKEN_WILDCARD, TAIL_WILDCARD}
    ensures !(Matches(f, s) && Matches(g, s))
  { }

  /** A filter without wildcards matches its own subject and no other. */
  lemma {:induction false} LiteralMatchesItself(f: Filter, s: Subject)
    requires forall i | 0 <= i < |f| :: f[i] !in {TOKEN_WILDCARD, TAIL_WILDCARD}
    ensures Matches(f, s) <==> f == s
  {
    if f != [] { assert f[|f| - 1] != TAIL_WILDCARD; }
  }

  /** `*` stands for exactly one token, whichever it is. */
  lemma {:induction false} StarTakesAnyToken(f: Filter, s: Subject, i: nat, t: string)
    requires i < |f| && f[i] == TOKEN_WILDCARD && i < |s|
    ensures Matches(f, s[i := t]) <==> Matches(f, s)
  {
    assert s[i := t][i := s[i]] == s;
    if Matches(f, s) { StarSwap(f, s, i, t); }
    if Matches(f, s[i := t]) { StarSwap(f, s[i := t], i, s[i]); }
  }

  lemma {:induction false} StarSwap(f: Filter, s: Subject, i: nat, t: string)
    requires i < |f| && f[i] == TOKEN_WILDCARD && i < |s| && Matches(f, s)
    ensures Matches(f, s[i := t])
  { }

  /** `n` stars match the subjects of `n` tokens. */
  lemma {:induction false} StarsMatch(f: Filter, s: Subject)
    requires forall i | 0 <= i < |f| :: f[i] == TOKEN_WILDCARD
    ensures Matches(f, s) <==> |s| == |f|
  {
    if f != [] { assert f[|f| - 1] != TAIL_WILDCARD; }
  }
}
