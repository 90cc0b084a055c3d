/**
 * The verse router: the gate in front of verse lookup for one chat message.
 *
 * The scanner (`findBooksInMessage`), the bracket test
 * (`isSurroundedByBrackets`) and the reference builder (`generateReference`)
 * are parameters: their bodies are not part of this model. A candidate has
 * the type the scanner gives it, `C`.
 */
module Verses {
  import opened Options
  import opened Text

  /** The two verse input modes the dispatcher passes. */
  datatype Mode = Default | Erasmus

  /** More candidates than this in one message is treated as spam. */
  const SpamLimit: nat := 10

  /** The version queried when the user's preference names none. */
  const FallbackVersion: string := "RSV"

  /** The brackets `erasmus` mode requires around a reference. */
  const ErasmusBrackets: string := "[]"

  /** One version lookup the router starts, for one candidate. */
  datatype Query<C> = Query(candidate: C, version: string)

  /**
   * What `processMessage` does with a message: nothing; the spam notice (one
   * `donutspam` message and one `'spam attempt'` log entry); or one lookup per
   * honoured candidate, in scanner order.
   */
  datatype Plan<C> = Silent | SpamNotice | Lookups(queries: seq<Query<C>>)

  /** JavaScript truthiness of the stored version field. */
  predicate Truthy(v: Option<string>) {
    v.Some? && v.value != ""
  }

  /** `queryVersion`: the stored version when it is truthy, otherwise "RSV". */
  function QueryVersion(pref: Option<string>): (v: string)
    ensures v != ""
    ensures Truthy(pref) ==> v == pref.value
    ensures v == FallbackVersion || pref == Some(v)
  {
    if Truthy(pref) then pref.value else FallbackVersion
  }

  /**
   * The two suppression rules: the guild's ignore brackets always suppress, and
   * in `erasmus` mode a candidate must also be inside `[]`.
   */
  predicate Honoured<C>(c: C, msg: string, mode: Mode, ignoring: string,
                        surrounded: (string, C, string) -> bool) {
    !surrounded(ignoring, c, msg) && (mode == Erasmus ==> surrounded(ErasmusBrackets, c, msg))
  }

  /** The lookups for the honoured candidates of `cs`, in order. */
  function HonouredQueries<C>(cs: seq<C>, msg: string, mode: Mode, ignoring: string,
                              surrounded: (string, C, string) -> bool, version: string): seq<Query<C>>
  {
    if cs == [] then []
    else
      HonouredQueries(cs[..|cs| - 1], msg, mode, ignoring, surrounded, version)
      + (if Honoured(cs[|cs| - 1], msg, mode, ignoring, surrounded) then [Query(cs[|cs| - 1], version)] else [])
  }

  /** The specification of `processMessage`. */
  function MessagePlan<C>(raw: string, mode: Mode, ignoring: string, pref: Option<string>,
                          find: string -> seq<C>, surrounded: (string, C, string) -> bool): Plan<C>
  {
    var msg := JoinLines(raw);
    if ' ' !in msg then Silent
    else if |find(msg)| > SpamLimit then SpamNotice
    else Lookups(HonouredQueries(find(msg), msg, mode, ignoring, surrounded, QueryVersion(pref)))
  }

  /** The router object; it holds no state. */
  class VersesRouter {
    constructor () {}

    /**
     * `processMessage(ctx, inputType)`: `raw` is `ctx.msg`, `ignoring` the
     * guild's `ignoringBrackets` and `pref` the stored `version` preference.
     */
    method ProcessMessage<C>(raw: string, mode: Mode, ignoring: string, pref: Option<string>,
                             find: string -> seq<C>, surrounded: (string, C, string) -> bool)
      returns (plan: Plan<C>)
      ensures plan == MessagePlan(raw, mode, ignoring, pref, find, surrounded)
      ensures plan.Silent? <==> ' ' !in JoinLines(raw)
      ensures plan.SpamNotice? <==> ' ' in JoinLines(raw) && |find(JoinLines(raw))| > SpamLimit
      ensures plan.Lookups? ==> |plan.queries| <= SpamLimit
    {
      var msg := JoinLines(raw);
      if ' ' !in msg {
        return Silent;
      }
      var results := find(msg);
      if |results| > SpamLimit {
        return SpamNotice;
      }
      var queries: seq<Query<C>> := [];
      for i := 0 to |results|
        invariant queries == HonouredQueries(results[..i], msg, mode, ignoring, surrounded, QueryVersion(pref))
      {
        assert results[..i + 1][..i] == results[..i];
        var result := results[i];
        if surrounded(ignoring, result, msg) {
          continue;
        }
        if mode == Erasmus && !surrounded(ErasmusBrackets, result, msg) {
          continue;
        }
        var queryVersion := FallbackVersion;
        if Truthy(pref) {
          queryVersion := pref.value;
        }
        queries := queries + [Query(result, queryVersion)];
      }
      assert results[..|results|] == results;
      HonouredQueriesLength(results, msg, mode, ignoring, surrounded, QueryVersion(pref));
      plan := Lookups(queries);
    }
  }

  /** Holder of the process-wide router, the static `VersesRouter.instance`. */
  class RouterRegistry {
    var instance: VersesRouter?

    constructor ()
      ensures instance == null
    {
      instance := null;
    }

    /** `getInstance()`: creates the router on the first call and returns that one ever after. */
    method GetInstance() returns (router: VersesRouter)
      modifies this
      ensures instance == router
      ensures old(instance) != null ==> router == old(instance)
      ensures old(instance) == null ==> fresh(router)
    {
      if instance == null {
        instance := new VersesRouter();
      }
      router := instance;
    }
  }

  /** Two calls to `getInstance` hand out the same router. */
  method GetInstanceTwice(registry: RouterRegistry) returns (first: VersesRouter, second: VersesRouter)
    modifies registry
    ensures first == second
  {
    first := registry.GetInstance();
    second := registry.GetInstance();
  }

  // ---------------------------------------------------------------------------
  // Properties of the gate

  lemma {:induction false} HonouredQueriesLength<C>(cs: seq<C>, msg: string, mode: Mode, ignoring: string,
                                                    surrounded: (string, C, string) -> bool, version: string)
    ensures |HonouredQueries(cs, msg, mode, ignoring, surrounded, version)| <= |cs|
    decreases |cs|
  {
    if cs != [] {
      HonouredQueriesLength(cs[..|cs| - 1], msg, mode, ignoring, surrounded, version);
    }
  }

  /**
   * A lookup is started for exactly the candidates the scanner found that pass
   * both suppression rules, each with the same version.
   */
  lemma {:induction false} HonouredQueriesMembers<C>(cs: seq<C>, msg: string, mode: Mode, ignoring: string,
                                                         surrounded: (string, C, string) -> bool, version: string, q: Query<C>)
    ensures q in HonouredQueries(cs, msg, mode, ignoring, surrounded, version)
            <==> q.candidate in cs && q.version == version && Honoured(q.candidate, msg, mode, ignoring, surrounded)
    decreases |cs|
  {
    if cs != [] {
      var init := cs[..|cs| - 1];
      HonouredQueriesMembers(init, msg, mode, ignoring, surrounded, version, q);
      assert cs == init + [cs[|cs| - 1]];
    }
  }

  /** The suppression rules judge each candidate on its own: the queries of two runs concatenate. */
  lemma {:induction false} HonouredQueriesAppend<C>(a: seq<C>, b: seq<C>, msg: string, mode: Mode, ignoring: string,
                                                    surrounded: (string, C, string) -> bool, version: string)
    ensures HonouredQueries(a + b, msg, mode, ignoring, surrounded, version)
            == HonouredQueries(a, msg, mode, ignoring, surrounded, version)
               + HonouredQueries(b, msg, mode, ignoring, surrounded, version)
    decreases |b|
  {
    if b == [] {
      assert a + b == a;
    } else {
      var b' := b[..|b| - 1];
      assert (a + b)[..|a + b| - 1] == a + b';
      assert (a + b)[|a + b| - 1] == b[|b| - 1];
      HonouredQueriesAppend(a, b', msg, mode, ignoring, surrounded, version);
    }
  }

  /** `erasmus` mode honours a subset of what `default` mode honours, in the same order. */
  lemma {:induction false} ErasmusIsStricter<C>(cs: seq<C>, msg: string, ignoring: string,
                                                surrounded: (string, C, string) -> bool, version: string)
    ensures HonouredQueries(cs, msg, Erasmus, ignoring, surrounded, version)
            == FilterBracketed(HonouredQueries(cs, msg, Default, ignoring, surrounded, version), msg, surrounded)
    decreases |cs|
  {
    if cs != [] {
      var init := cs[..|cs| - 1];
      ErasmusIsStricter(init, msg, ignoring, surrounded, version);
      var qs := HonouredQueries(init, msg, Default, ignoring, surrounded, version);
      var c := cs[|cs| - 1];
      if Honoured(c, msg, Default, ignoring, surrounded) {
        FilterBracketedAppend(qs, Query(c, version), msg, surrounded);
      } else {
        assert qs + [] == qs;
      }
    }
  }

  /** The queries whose candidate is inside `[]`. */
  function FilterBracketed<C>(qs: seq<Query<C>>, msg: string, surrounded: (string, C, string) -> bool): seq<Query<C>> {
    if qs == [] then []
    else FilterBracketed(qs[..|qs| - 1], msg, surrounded)
         + (if surrounded(ErasmusBrackets, qs[|qs| - 1].candidate, msg) then [qs[|qs| - 1]] else [])
  }

  lemma FilterBracketedAppend<C>(qs: seq<Query<C>>, q: Query<C>, msg: string, surrounded: (string, C, string) -> bool)
    ensures FilterBracketed(qs + [q], msg, surrounded)
            == FilterBracketed(qs, msg, surrounded) + (if surrounded(ErasmusBrackets, q.candidate, msg) then [q] else [])
  {
    assert (qs + [q])[..|qs|] == qs;
  }

  /**
   * The whole gate: silent exactly when the joined message has no space; the
   * spam notice exactly when the scanner, run on the joined message, finds more
   * than ten candidates, counted before any suppression; and otherwise one
   * lookup per candidate that neither the guild's brackets nor (in `erasmus`
   * mode) missing `[]` suppress, all with the preferred version or "RSV".
   */
  lemma MessagePlanCases<C>(raw: string, mode: Mode, ignoring: string, pref: Option<string>,
                                find: string -> seq<C>, surrounded: (string, C, string) -> bool, q: Query<C>)
    ensures var msg := JoinLines(raw);
      var plan := MessagePlan(raw, mode, ignoring, pref, find, surrounded);
      && (plan.Silent? <==> ' ' !in msg)
      && (plan.SpamNotice? <==> ' ' in msg && |find(msg)| > SpamLimit)
      && (plan.Lookups? ==>
            (q in plan.queries <==>
               && q.candidate in find(msg)
               && !surrounded(ignoring, q.candidate, msg)
               && (mode == Erasmus ==> surrounded(ErasmusBrackets, q.candidate, msg))
               && q.version == (if Truthy(pref) then pref.value else FallbackVersion)))
  {
    var msg := JoinLines(raw);
    HonouredQueriesMembers(find(msg), msg, mode, ignoring, surrounded, QueryVersion(pref), q);
  }

  // ---------------------------------------------------------------------------
  // The lookups' callbacks

  /**
   * What reaches `processVerse`: for each lookup, the version record found for
   * its abbreviation and the reference built from it; a `null` reference is
   * dropped. `lookup` stands for `Version.findOne`, `generate` for
   * `generateReference`.
   */
  function Resolved<C, V, R>(queries: seq<Query<C>>, msg: string, lookup: string -> V,
                             generate: (C, string, V) -> Option<R>): seq<R>
  {
    if queries == [] then []
    else
      var q := queries[|queries| - 1];
      var reference := generate(q.candidate, msg, lookup(q.version));
      Resolved(queries[..|queries| - 1], msg, lookup, generate)
      + (if reference.Some? then [reference.value] else [])
  }

  /** A dropped reference does not affect the others: resolution works query by query. */
  lemma {:induction false} ResolvedAppend<C, V, R>(a: seq<Query<C>>, b: seq<Query<C>>, msg: string,
                                                   lookup: string -> V, generate: (C, string, V) -> Option<R>)
    ensures Resolved(a + b, msg, lookup, generate) == Resolved(a, msg, lookup, generate) + Resolved(b, msg, lookup, generate)
    decreases |b|
  {
    if b == [] {
      assert a + b == a;
    } else {
      var b' := b[..|b| - 1];
      assert (a + b)[..|a + b| - 1] == a + b';
      assert (a + b)[|a + b| - 1] == b[|b| - 1];
      ResolvedAppend(a, b', msg, lookup, generate);
    }
  }

  /** A reference is processed exactly when some lookup's candidate produced it. */
  lemma {:induction false} ResolvedMembers<C, V, R>(queries: seq<Query<C>>, msg: string, lookup: string -> V,
                                                        generate: (C, string, V) -> Option<R>, r: R)
    ensures r in Resolved(queries, msg, lookup, generate)
            <==> exists i :: 0 <= i < |queries| && generate(queries[i].candidate, msg, lookup(queries[i].version)) == Some(r)
    decreases |queries|
  {
    if queries != [] {
      var init := queries[..|queries| - 1];
      ResolvedMembers(init, msg, lookup, generate, r);
      var last := |queries| - 1;
      if r in Resolved(init, msg, lookup, generate) {
        var i :| 0 <= i < |init| && generate(init[i].candidate, msg, lookup(init[i].version)) == Some(r);
        assert queries[i] == init[i];
      }
      if exists i :: 0 <= i < |queries| && generate(queries[i].candidate, msg, lookup(queries[i].version)) == Some(r) {
        var i :| 0 <= i < |queries| && generate(queries[i].candidate, msg, lookup(queries[i].version)) == Some(r);
        if i < last {
          assert queries[i] == init[i];
        }
      }
    }
  }

  /** At most one reference per lookup. */
  lemma {:induction false} ResolvedLength<C, V, R>(queries: seq<Query<C>>, msg: string, lookup: string -> V,
                                                   generate: (C, string, V) -> Option<R>)
    ensures |Resolved(queries, msg, lookup, generate)| <= |queries|
    decreases |queries|
  {
    if queries != [] {
      ResolvedLength(queries[..|queries| - 1], msg, lookup, generate);
    }
  }
}
