// Following named links, each leading to at most one other, until one leads nowhere.

module Walks {
  ghost predicate EndsWithin(links: map<string, string>, x: string, steps: nat)
    decreases steps
  {
    x !in links || (steps > 0 && EndsWithin(links, links[x], steps - 1))
  }

  /** The walk from `x` ends: it does not run into a cycle. */
  ghost predicate Ends(links: map<string, string>, x: string) { exists steps: nat :: EndsWithin(links, x, steps) }

  lemma {:induction false} MoreSteps(links: map<string, string>, x: string, steps: nat, more: nat)
    requires EndsWithin(links, x, steps) && steps <= more
    ensures EndsWithin(links, x, more)
    decreases steps
  {
    if x in links { MoreSteps(links, links[x], steps - 1, more - 1); }
  }

  /** The fewest steps the walk ends within. */
  ghost function Steps(links: map<string, string>, x: string): (n: nat)
    requires Ends(links, x)
    ensures EndsWithin(links, x, n) && forall m: nat | m < n :: !EndsWithin(links, x, m)
  {
    var steps: nat :| EndsWithin(links, x, steps);
    LeastFrom(links, x, steps)
  }

  ghost function LeastFrom(links: map<string, string>, x: string, steps: nat): (n: nat)
    requires EndsWithin(links, x, steps)
    ensures n <= steps && EndsWithin(links, x, n) && forall m: nat | m < n :: !EndsWithin(links, x, m)
  {
    if m: nat :| m < steps && EndsWithin(links, x, m) then LeastFrom(links, x, m) else steps
  }

  lemma {:induction false} StepsShrink(links: map<string, string>, x: string)
    requires Ends(links, x) && x in links
    ensures Ends(links, links[x]) && Steps(links, links[x]) < Steps(links, x)
  {
    var n := Steps(links, x);
    assert EndsWithin(links, links[x], n - 1);
  }
}
