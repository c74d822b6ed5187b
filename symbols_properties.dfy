/** What chained lookup finds in a scope chain of the shape the analyzer keeps. */
module SymbolProperties {
  import opened Wrappers
  import opened Syntax
  import opened Symbols

  /** A chain that ends in the root and has at least one scope above it never makes `lookup` panic. */
  lemma {:induction false} ScopesCanLookup(fs: seq<Frame>, n: string)
    requires Scopes(fs) && |fs| >= 2
    ensures CanLookup(fs, n)
    decreases |fs|
  {
    if n !in fs[0].table && fs[1].level != 0 {
      assert 1 < |fs| - 1;
      ScopesTail(fs);
      ScopesCanLookup(fs[1..], n);
    }
  }

  /** The shape of chain stated by position: the last scope is at level 0, every other one is not. */
  lemma {:induction false} ScopesByLevel(fs: seq<Frame>)
    ensures Scopes(fs) <==> |fs| > 0 && fs[|fs| - 1].level == 0 && forall i :: 0 <= i < |fs| - 1 ==> fs[i].level != 0
    decreases |fs|
  {
    if |fs| > 1 {
      ScopesByLevel(fs[1..]);
      assert fs[1..][|fs[1..]| - 1] == fs[|fs| - 1];
      forall i | 1 <= i < |fs| - 1
        ensures fs[i] == fs[1..][i - 1]
      {
      }
    }
  }

  /** Dropping the innermost scope of a chain leaves a chain. */
  lemma ScopesTail(fs: seq<Frame>)
    requires Scopes(fs) && |fs| >= 2
    ensures Scopes(fs[1..])
  {
  }

  /**
   * The innermost binding wins: when scope `i` is the first, counting
   * outward, that declares `n`, and it is not the root, lookup returns its entry.
   */
  lemma {:induction false} LookupFindsInnermost(fs: seq<Frame>, n: string, i: nat)
    requires Scopes(fs) && i < |fs| - 1
    requires n in fs[i].table && forall j :: 0 <= j < i ==> n !in fs[j].table
    ensures CanLookup(fs, n) && ChainLookup(fs, n) == Some(fs[i].table[n])
    decreases i
  {
    ScopesCanLookup(fs, n);
    if i > 0 {
      assert n !in fs[0].table;
      assert fs[1].level != 0;
      ScopesTail(fs);
      forall j | 0 <= j < i - 1
        ensures n !in fs[1..][j].table
      {
        assert fs[1..][j] == fs[j + 1];
      }
      LookupFindsInnermost(fs[1..], n, i - 1);
    }
  }

  /**
   * Lookup finds nothing exactly when no scope but the root declares the
   * name: the root is never searched.
   */
  lemma {:induction false} LookupMissing(fs: seq<Frame>, n: string)
    requires Scopes(fs) && |fs| >= 2
    ensures CanLookup(fs, n)
    ensures ChainLookup(fs, n).None? <==> forall i :: 0 <= i < |fs| - 1 ==> n !in fs[i].table
    decreases |fs|
  {
    ScopesCanLookup(fs, n);
    if n !in fs[0].table && |fs| > 2 {
      ScopesTail(fs);
      LookupMissing(fs[1..], n);
      forall i | 1 <= i < |fs| - 1
        ensures fs[i] == fs[1..][i - 1]
      {
      }
    }
  }

  /**
   * A name declared only in the innermost scope is found there but not from
   * the scope that encloses it: lookup walks outward only.
   */
  lemma InnerNameInvisibleOutside(fs: seq<Frame>, n: string)
    requires Scopes(fs) && |fs| >= 3
    requires n in fs[0].table && forall i :: 1 <= i < |fs| ==> n !in fs[i].table
    ensures CanLookup(fs, n) && ChainLookup(fs, n) == Some(fs[0].table[n])
    ensures CanLookup(fs[1..], n) && ChainLookup(fs[1..], n) == None
  {
    ScopesTail(fs);
    LookupMissing(fs[1..], n);
    assert forall i :: 0 <= i < |fs[1..]| - 1 ==> fs[1..][i] == fs[i + 1];
  }

  /** After `insert(s)` into the innermost scope, lookup of its name finds `s`. */
  lemma InsertThenLookup(fs: seq<Frame>, s: Symbol)
    requires |fs| > 0
    ensures CanLookup([Inserted(fs[0], s)] + fs[1..], s.name)
    ensures ChainLookup([Inserted(fs[0], s)] + fs[1..], s.name) == Some(s)
  {
  }

  /** `set_enclosing_scope(p)` then `enclosing_scope()` gives back `p`, unchanged, and leaves the link empty. */
  method EnclosingScopeRoundTrip(t: ScopedSymbolTable, p: ScopedSymbolTable) returns (q: ScopedSymbolTable)
    requires t.Valid() && p.Valid() && t !in p.Repr
    modifies t
    ensures q == p && t.enclosingScope == null
    ensures q.Valid() && q.Frames() == old(p.Frames())
  {
    t.SetEnclosingScope(p);
    q := t.EnclosingScope();
  }
}
