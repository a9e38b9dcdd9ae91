/** The number of migrations a drain may keep in flight on one host. */
module Concurrency {
  import opened Basics

  datatype Config = Config(defaultLimit: int, traitLimits: map<string, int>)

  /** `m` is the default or the limit of one of the traits, and no larger than any of them. */
  ghost predicate IsLowest(m: int, cfg: Config, traits: seq<string>) {
    && (m == cfg.defaultLimit || exists t :: t in traits && t in cfg.traitLimits && m == cfg.traitLimits[t])
    && m <= cfg.defaultLimit
    && forall t :: t in traits && t in cfg.traitLimits ==> m <= cfg.traitLimits[t]
  }

  function Lowest(cfg: Config, traits: seq<string>): (m: int)
    ensures IsLowest(m, cfg, traits)
  {
    if traits == [] then cfg.defaultLimit
    else
      var n := |traits| - 1;
      var rest := Lowest(cfg, traits[..n]);
      assert traits == traits[..n] + [traits[n]];
      if traits[n] in cfg.traitLimits then Min(rest, cfg.traitLimits[traits[n]]) else rest
  }

  lemma LowestUnique(cfg: Config, a: seq<string>, b: seq<string>, m: int, n: int)
    requires forall t :: t in a <==> t in b
    requires IsLowest(m, cfg, a) && IsLowest(n, cfg, b)
    ensures m == n
  {
  }

  /** What the loop resolves to. */
  function Resolved(cfg: Config, traits: seq<string>): int { Max(1, Lowest(cfg, traits)) }

  method ResolveConcurrency(cfg: Config, traits: seq<string>) returns (limit: int)
    ensures limit == Resolved(cfg, traits)
  {
    limit := cfg.defaultLimit;
    for i := 0 to |traits|
      invariant limit == Lowest(cfg, traits[..i])
    {
      assert traits[..i + 1][..i] == traits[..i];
      var t := traits[i];
      if t in cfg.traitLimits && cfg.traitLimits[t] < limit {
        limit := cfg.traitLimits[t];
      }
    }
    assert traits[..|traits|] == traits;
    if limit < 1 {
      limit := 1;
    }
  }

  /** The limit depends only on which traits the host carries, not on their order or
      repetition, never stalls a drain, and is the lowest of the default and the applicable
      limits, none counting for less than 1. */
  lemma LimitIgnoresOrder(cfg: Config, a: seq<string>, b: seq<string>)
    requires Elements(a) == Elements(b)
    ensures Resolved(cfg, a) == Resolved(cfg, b) >= 1
    ensures Resolved(cfg, a) <= Max(1, cfg.defaultLimit)
    ensures forall t :: t in a && t in cfg.traitLimits ==> Resolved(cfg, a) <= Max(1, cfg.traitLimits[t])
    ensures || Resolved(cfg, a) == Max(1, cfg.defaultLimit)
            || exists t :: t in a && t in cfg.traitLimits && Resolved(cfg, a) == Max(1, cfg.traitLimits[t])
  {
    forall t ensures t in a <==> t in b {
      assert t in Elements(a) <==> t in Elements(b);
    }
    LowestUnique(cfg, a, b, Lowest(cfg, a), Lowest(cfg, b));
    assert IsLowest(Lowest(cfg, a), cfg, a);
  }
}
