/** Access control by darcs: policies that may delegate to other darcs, and that evolve by being
    signed for under the policy they replace. */
module Darcs {
  import opened Fields
  import opened Expression

  type Rules = map<string, string>

  const EVOLVE := "_evolve"
  const SIGN := "_sign"

  /** The ID of a darc, as the fields that go into its hash, kept apart. This is an idealisation:
      GetID writes actions and expressions one after the other without separators, so that darcs
      whose rules differ may have the same ID. Nil is a missing ID, and Other one that is not the
      hash of any darc. */
  datatype Id = Nil | Other(bytes: Bytes) | Of(version: nat, description: Bytes, base: Id, path: PathDigest,
    rules: Rules)

  datatype PathDigest = Unset | OtherDigest(bytes: Bytes) | DigestOf(ids: seq<Id>)

  /** What signers sign. */
  datatype RequestDigest = RequestDigest(base: Id, action: string, msg: Id, identities: seq<string>)

  datatype Signature = Signature(signer: string, sig: Bytes)

  /** A version is an unsigned number of 64 bits. */
  datatype Darc = Darc(version: nat, description: Bytes, baseId: Id, rules: Rules,
                       path: seq<Darc>, pathDigest: PathDigest, signatures: seq<Signature>)

  function NextVersion(v: nat): nat {
    (v + 1) % TWO_64
  }

  /** GetID; signatures and path are not part of it. */
  function GetId(d: Darc): Id {
    Of(d.version, d.description, d.baseId, d.pathDigest, d.rules)
  }

  function GetBaseId(d: Darc): Id {
    if d.version == 0 then GetId(d) else d.baseId
  }

  function Ids(path: seq<Darc>): (ids: seq<Id>)
    ensures |ids| == |path|
  {
    seq(|path|, i requires 0 <= i < |path| => GetId(path[i]))
  }

  function HashPath(path: seq<Darc>): PathDigest {
    DigestOf(Ids(path))
  }

  // ---- delegation ----

  predicate IsDarc(name: string) {
    |name| >= 4 && name[..4] == "darc"
  }

  function Signers(d: Darc): set<string> {
    set i | 0 <= i < |d.signatures| :: d.signatures[i].signer
  }

  type Registry = map<string, Darc>

  /** How signatures are made and checked. */
  datatype Scheme = Scheme(verify: (string, RequestDigest, Bytes) -> bool, sign: (string, RequestDigest) -> Bytes)

  /** What becomes of an expression when these identities ask; evaluating it may crash. */
  type Evaluator = (string, set<string>) -> Check

  /** The expression that whoever evolves the darc has to satisfy; a missing one is empty. */
  function Policy(d: Darc): string {
    if EVOLVE in d.rules then d.rules[EVOLVE] else ""
  }

  /** verifyOneEvolution; `ev` evaluates an expression for a set of identities. */
  function EvolvesFrom(z: Scheme, ev: Evaluator, next: Darc, prev: Darc): Check {
    if next.baseId == Nil || GetBaseId(next) != GetBaseId(prev)
      || next.version != NextVersion(prev.version) then Reject
    else match ev(Policy(prev), Signers(next))
      case Accept => if AllSigned(z, next) then Accept else Reject
      case other => other
  }

  predicate AllSigned(z: Scheme, d: Darc) {
    forall i :: 0 <= i < |d.signatures| ==> z.verify(d.signatures[i].signer, SignedDigest(d), d.signatures[i].sig)
  }

  /** The digest that the signatures of a darc are made on. */
  function SignedDigest(d: Darc): RequestDigest {
    RequestDigest(GetBaseId(d), EVOLVE, GetId(d), Names(d.signatures))
  }

  function Names(sigs: seq<Signature>): (names: seq<string>)
    ensures |names| == |sigs|
  {
    seq(|sigs|, i requires 0 <= i < |sigs| => sigs[i].signer)
  }

  /** The loop over the path; `prev` is None until the genesis darc has been seen. Without one,
      the first evolution is compared with nothing, which crashes unless it has no base ID. */
  function CheckPath(z: Scheme, ev: Evaluator, prev: Option<Darc>, path: seq<Darc>): (Check, Option<Darc>)
    decreases |path|
  {
    if path == [] then (Accept, prev)
    else
      var curr := path[0];
      if prev == None && curr.version == 0 then CheckPath(z, ev, Some(curr), path[1..])
      else if prev == None then (if curr.baseId == Nil then Reject else Crash, prev)
      else match EvolvesFrom(z, ev, curr, prev.value)
        case Accept => CheckPath(z, ev, Some(curr), path[1..])
        case other => (other, prev)
  }

  /** The darcs of the path of the latest one that are older than `d`. */
  function OlderThan(version: nat, path: seq<Darc>): seq<Darc> {
    if path == [] || version <= path[0].version then [] else [path[0]] + OlderThan(version, path[1..])
  }

  /** findPath; `nameOf` writes an ID as an identity. None is an error. */
  function FindPath(nameOf: Id -> string, reg: Registry, d: Darc): Option<seq<Darc>> {
    if d.path != [] then Some(d.path)
    else
      var name := nameOf(GetBaseId(d));
      if name !in reg then None
      else
        var path := OlderThan(d.version, reg[name].path);
        if HashPath(path) != d.pathDigest || path == [] then None else Some(path)
  }

  /** VerifyWithCB, with the evaluation of expressions as a parameter */
  function VerifyWith(z: Scheme, ev: Evaluator, nameOf: Id -> string, reg: Registry, d: Darc): Check {
    if d.version == 0 then Accept
    else if d.signatures == [] then Reject
    else match FindPath(nameOf, reg, d)
      case None => Reject
      case Some(path) =>
        match CheckPath(z, ev, None, path).0
        case Accept => EvolvesFrom(z, ev, d, path[|path| - 1])
        case other => other
  }

  /** VerifyWithCB */
  method VerifyDarc(z: Scheme, ev: Evaluator, nameOf: Id -> string, reg: Registry, d: Darc) returns (r: Check)
    ensures r == VerifyWith(z, ev, nameOf, reg, d)
  {
    if d.version == 0 {
      return Accept;
    }
    if |d.signatures| == 0 {
      return Reject;
    }
    var found := FindPath(nameOf, reg, d);
    if found == None {
      return Reject;
    }
    var path := found.value;
    var prev: Option<Darc> := None;
    for i := 0 to |path|
      invariant CheckPath(z, ev, prev, path[i..]) == CheckPath(z, ev, None, path)
      invariant if i == 0 then prev == None else prev == Some(path[i - 1])
    {
      assert path[i..][1..] == path[i + 1..];
      var curr := path[i];
      if prev == None && curr.version == 0 {
        prev := Some(curr);
      } else if prev == None {
        return if curr.baseId == Nil then Reject else Crash;
      } else {
        r := EvolvesFrom(z, ev, curr, prev.value);
        if r != Accept {
          return r;
        }
        prev := Some(curr);
      }
    }
    r := EvolvesFrom(z, ev, d, path[|path| - 1]);
  }

  // ---- what an accepted chain looks like ----

  /** Every darc of the path evolves from the one before it. */
  ghost predicate Chain(z: Scheme, ev: Evaluator, path: seq<Darc>) {
    forall i :: 0 < i < |path| ==> EvolvesFrom(z, ev, path[i], path[i - 1]) == Accept
  }

  /** One evaluation crashes, and every darc before it evolves. */
  ghost predicate Stumbles(z: Scheme, ev: Evaluator, path: seq<Darc>) {
    exists i :: 0 < i < |path| && EvolvesFrom(z, ev, path[i], path[i - 1]) == Crash && Chain(z, ev, path[..i])
  }

  lemma ChainSnoc(z: Scheme, ev: Evaluator, path: seq<Darc>, d: Darc)
    requires path != []
    ensures Chain(z, ev, path + [d]) <==> Chain(z, ev, path) && EvolvesFrom(z, ev, d, path[|path| - 1]) == Accept
    ensures Stumbles(z, ev, path + [d]) <==>
      Stumbles(z, ev, path) || (Chain(z, ev, path) && EvolvesFrom(z, ev, d, path[|path| - 1]) == Crash)
  {
    var all := path + [d];
    forall i | 0 < i < |path|
      ensures EvolvesFrom(z, ev, path[i], path[i - 1]) == EvolvesFrom(z, ev, all[i], all[i - 1])
        && all[..i] == path[..i] {
    }
    assert all[..|path|] == path;
    if Chain(z, ev, all) {
      assert EvolvesFrom(z, ev, all[|path|], all[|path| - 1]) == Accept;
    }
    if i :| 0 < i < |path| && EvolvesFrom(z, ev, path[i], path[i - 1]) == Crash && Chain(z, ev, path[..i]) {
      assert EvolvesFrom(z, ev, all[i], all[i - 1]) == Crash && Chain(z, ev, all[..i]);
    }
    if Chain(z, ev, path) && EvolvesFrom(z, ev, d, path[|path| - 1]) == Crash {
      assert EvolvesFrom(z, ev, all[|path|], all[|path| - 1]) == Crash && Chain(z, ev, all[..|path|]);
    }
  }

  /** The walk along `more` comes after one along `done`, on which every darc evolved. */
  lemma {:induction false} CheckPathChain(z: Scheme, ev: Evaluator, done: seq<Darc>, more: seq<Darc>)
    requires done != [] && Chain(z, ev, done)
    ensures
      var r := CheckPath(z, ev, Some(done[|done| - 1]), more).0;
      (r == Accept <==> Chain(z, ev, done + more)) && (r == Crash <==> Stumbles(z, ev, done + more))
    decreases |more|
  {
    if more == [] {
      assert done + more == done;
      NeverStumbles(z, ev, done);
    } else {
      assert done + more == done + [more[0]] + more[1..];
      ChainSnoc(z, ev, done, more[0]);
      if EvolvesFrom(z, ev, more[0], done[|done| - 1]) == Accept {
        CheckPathChain(z, ev, done + [more[0]], more[1..]);
      } else {
        Stuck(z, ev, done, more);
      }
    }
  }

  lemma NeverStumbles(z: Scheme, ev: Evaluator, path: seq<Darc>)
    requires Chain(z, ev, path)
    ensures !Stumbles(z, ev, path)
  {
  }

  /** The first darc that does not evolve decides. */
  lemma Stuck(z: Scheme, ev: Evaluator, done: seq<Darc>, more: seq<Darc>)
    requires done != [] && more != [] && Chain(z, ev, done) && EvolvesFrom(z, ev, more[0], done[|done| - 1]) != Accept
    ensures !Chain(z, ev, done + more)
    ensures Stumbles(z, ev, done + more) <==> EvolvesFrom(z, ev, more[0], done[|done| - 1]) == Crash
  {
    var all, n := done + more, |done|;
    assert all[n] == more[0] && all[n - 1] == done[n - 1] && all[..n] == done;
    if i :| 0 < i < |all| && EvolvesFrom(z, ev, all[i], all[i - 1]) == Crash && Chain(z, ev, all[..i]) {
      if i > n {
        assert all[..i][n] == all[n] && all[..i][n - 1] == all[n - 1];
      }
    }
  }

  /** A darc that is not a genesis darc is accepted exactly if it is signed, its path can be
      found and begins with a genesis darc, and every darc of the path, and the darc itself,
      evolves from the one before. It crashes exactly if the path begins with another darc that
      has a base ID, or if evaluating an expression crashes where all darcs before evolve. */
  lemma AcceptedChain(z: Scheme, ev: Evaluator, nameOf: Id -> string, reg: Registry, d: Darc)
    requires d.version != 0
    ensures VerifyWith(z, ev, nameOf, reg, d) == Accept <==>
      && d.signatures != [] && FindPath(nameOf, reg, d).Some?
      && var path := FindPath(nameOf, reg, d).value;
      path[0].version == 0 && Chain(z, ev, path + [d])
    ensures VerifyWith(z, ev, nameOf, reg, d) == Crash <==>
      && d.signatures != [] && FindPath(nameOf, reg, d).Some?
      && var path := FindPath(nameOf, reg, d).value;
      if path[0].version == 0 then Stumbles(z, ev, path + [d]) else path[0].baseId != Nil
  {
    if FindPath(nameOf, reg, d).Some? {
      var path := FindPath(nameOf, reg, d).value;
      if path[0].version == 0 {
        CheckPathChain(z, ev, [path[0]], path[1..]);
        assert [path[0]] + path[1..] == path;
        ChainSnoc(z, ev, path, d);
        if Chain(z, ev, path) {
          NeverStumbles(z, ev, path);
        }
      }
    }
  }

  /** Along a chain from a genesis darc the versions count up from 0, all base IDs are the ID of
      that darc, and the signers of each step satisfy the `_evolve` expression of the one before,
      with every signature checking. */
  lemma {:induction false} ChainFacts(z: Scheme, ev: Evaluator, path: seq<Darc>, i: nat)
    requires Chain(z, ev, path) && i < |path| < TWO_64 && path[0].version == 0
    ensures path[i].version == i && GetBaseId(path[i]) == GetId(path[0])
    ensures i > 0 ==> path[i].baseId == GetId(path[0]) && ev(Policy(path[i - 1]), Signers(path[i])) == Accept
    ensures i > 0 ==> forall k :: 0 <= k < |path[i].signatures| ==>
      z.verify(path[i].signatures[k].signer, SignedDigest(path[i]), path[i].signatures[k].sig)
  {
    if i > 0 {
      ChainFacts(z, ev, path, i - 1);
      assert EvolvesFrom(z, ev, path[i], path[i - 1]) == Accept;
    }
  }

  /** So the version of an accepted darc is the length of its path. */
  lemma AcceptedFacts(z: Scheme, ev: Evaluator, nameOf: Id -> string, reg: Registry, d: Darc)
    requires 0 < d.version < TWO_64 && VerifyWith(z, ev, nameOf, reg, d) == Accept
    requires |FindPath(nameOf, reg, d).value| < TWO_64 - 1
    ensures
      var path := FindPath(nameOf, reg, d).value;
      && d.version == |path| && d.baseId == GetId(path[0]) && ev(Policy(path[|path| - 1]), Signers(d)) == Accept
      && (forall i :: 0 <= i < |path| ==> path[i].version == i && GetBaseId(path[i]) == GetId(path[0]))
      && (forall i :: 0 < i < |path| ==> ev(Policy(path[i - 1]), Signers(path[i])) == Accept)
  {
    AcceptedChain(z, ev, nameOf, reg, d);
    var path := FindPath(nameOf, reg, d).value;
    var all := path + [d];
    ChainFacts(z, ev, all, |path|);
    forall i | 0 <= i < |path|
      ensures path[i].version == i && GetBaseId(path[i]) == GetId(path[0])
      ensures i > 0 ==> ev(Policy(path[i - 1]), Signers(path[i])) == Accept
    {
      ChainFacts(z, ev, all, i);
      assert all[i] == path[i] && (i > 0 ==> all[i - 1] == path[i - 1]);
    }
  }

  /** What is asked of darc `i` of a chain, from the start: it is the version of that number, its base
      is the genesis darc, its signers satisfy the `_evolve` expression of the darc before, and
      each of them has signed for its base, the action, its ID and all the signers. */
  ghost predicate Follows(z: Scheme, ev: Evaluator, all: seq<Darc>, i: nat)
    requires 0 < i < |all|
  {
    var d, prev := all[i], all[i - 1];
    && d.version == i && d.baseId == GetId(all[0])
    && ev(if "_evolve" in prev.rules then prev.rules["_evolve"] else "", Signers(d)) == Accept
    && forall k :: 0 <= k < |d.signatures| ==>
       z.verify(d.signatures[k].signer, RequestDigest(GetId(all[0]), "_evolve", GetId(d), Names(d.signatures)),
         d.signatures[k].sig)
  }

  lemma {:induction false} ChainFollows(z: Scheme, ev: Evaluator, all: seq<Darc>, n: nat)
    requires n <= |all| < TWO_64 && all != [] && all[0].version == 0
    ensures (forall i :: 0 < i < n ==> Follows(z, ev, all, i)) <==>
      forall i :: 0 < i < n ==> EvolvesFrom(z, ev, all[i], all[i - 1]) == Accept
    ensures n > 0 && (forall i :: 0 < i < n ==> Follows(z, ev, all, i)) ==>
      all[n - 1].version == n - 1 && GetBaseId(all[n - 1]) == GetId(all[0])
  {
    if n > 1 {
      ChainFollows(z, ev, all, n - 1);
      if forall i :: 0 < i < n - 1 ==> Follows(z, ev, all, i) {
        FollowsIs(z, ev, all, n - 1);
      }
    }
  }

  lemma FollowsIs(z: Scheme, ev: Evaluator, all: seq<Darc>, i: nat)
    requires 0 < i < |all| < TWO_64
    requires all[i - 1].version == i - 1 && GetBaseId(all[i - 1]) == GetId(all[0])
    ensures Follows(z, ev, all, i) <==> EvolvesFrom(z, ev, all[i], all[i - 1]) == Accept
  {
  }

  /** A darc with a version above 0 is accepted exactly if it is signed and its path begins with a
      genesis darc from which all of them, and the darc itself, follow. */
  lemma AcceptedExactly(z: Scheme, ev: Evaluator, nameOf: Id -> string, reg: Registry, d: Darc)
    requires 0 < d.version
    requires FindPath(nameOf, reg, d).Some? ==> |FindPath(nameOf, reg, d).value| < TWO_64 - 1
    ensures VerifyWith(z, ev, nameOf, reg, d) == Accept <==>
      && d.signatures != [] && FindPath(nameOf, reg, d).Some?
      && var all := FindPath(nameOf, reg, d).value + [d];
      all[0].version == 0 && forall i :: 0 < i < |all| ==> Follows(z, ev, all, i)
  {
    AcceptedChain(z, ev, nameOf, reg, d);
    if FindPath(nameOf, reg, d).Some? {
      var path := FindPath(nameOf, reg, d).value;
      assert path != [] && (path + [d])[0] == path[0];
      if path[0].version == 0 {
        ChainFollows(z, ev, path + [d], |path| + 1);
      }
    }
  }

  // ---- evaluating expressions ----

  /** Without other darcs: identities are valid if they are listed, darcs never are. */
  function Listed(ids: set<string>): Asker {
    name => if !IsDarc(name) && name in ids then Accept else Reject
  }

  function EvalAlone(expr: string, ids: set<string>): Check {
    Judge(Listed(ids), expr)
  }

  const NOBODY: Registry := map[]

  /** Verify of a darc that has been looked up */
  function Verified(z: Scheme, nameOf: Id -> string, d: Darc): Check {
    VerifyWith(z, EvalAlone, nameOf, NOBODY, d)
  }

  /** The path of the darc begins with a darc that is no genesis darc but has a base ID. */
  predicate Broken(d: Darc) {
    d.version != 0 && d.signatures != [] && d.path != [] && d.path[0].version != 0 && d.path[0].baseId != Nil
  }

  /** Verifying a darc on its own crashes exactly then: there is no darc to compare with. */
  lemma VerifiedCrashes(z: Scheme, nameOf: Id -> string, d: Darc)
    ensures Verified(z, nameOf, d) == Crash <==> Broken(d)
  {
    forall expr, ids ensures EvalAlone(expr, ids) != Crash {
      JudgeIs(Listed(ids), expr);
    }
    if d.version != 0 {
      AcceptedChain(z, EvalAlone, nameOf, NOBODY, d);
    }
  }

  /** What evalExpr asks about a darc: does it verify, and is its `_sign` expression satisfied?
      `inner` answers for the identities in that expression. */
  function AskDarc(z: Scheme, nameOf: Id -> string, d: Darc, inner: Asker): Check {
    match Verified(z, nameOf, d)
    case Accept => if SIGN in d.rules then Judge(inner, d.rules[SIGN]) else Reject
    case other => other
  }

  /** And about an identity: is it a darc that is known, or else, is it listed? */
  function Ask(z: Scheme, nameOf: Id -> string, reg: Registry, ids: set<string>, inner: Asker, name: string): Check {
    if IsDarc(name) then (if name in reg then AskDarc(z, nameOf, reg[name], inner) else Reject)
    else if name in ids then Accept
    else Reject
  }

  /** The darcs that the `_sign` expression of a darc refers to */
  function SignNames(d: Darc): set<string> {
    if SIGN in d.rules then NamesSum(d.rules[SIGN]) else {}
  }

  /** Delegation does not go round in circles: the expressions of a darc refer only to darcs of
      lower rank. */
  ghost predicate Acyclic(reg: Registry, rank: string -> nat) {
    forall name, other :: name in reg && IsDarc(other) && other in SignNames(reg[name]) ==> rank(other) < rank(name)
  }

  /** The recursion of evalExpr; the bound is what makes it end, and is never reached. */
  function IsValid(z: Scheme, nameOf: Id -> string, reg: Registry, rank: string -> nat, ids: set<string>, bound: nat,
      name: string): Check
    decreases bound
  {
    if IsDarc(name) then
      if name in reg && rank(name) < bound then
        AskDarc(z, nameOf, reg[name], other => IsValid(z, nameOf, reg, rank, ids, rank(name), other))
      else Reject
    else if name in ids then Accept
    else Reject
  }

  function Validity(z: Scheme, nameOf: Id -> string, reg: Registry, rank: string -> nat, ids: set<string>,
      bound: nat): Asker {
    name => IsValid(z, nameOf, reg, rank, ids, bound, name)
  }

  lemma AskAgrees(z: Scheme, nameOf: Id -> string, d: Darc, f: Asker, g: Asker)
    requires forall other :: other in SignNames(d) ==> f(other) == g(other)
    ensures AskDarc(z, nameOf, d, f) == AskDarc(z, nameOf, d, g)
  {
    if SIGN in d.rules {
      JudgeAgrees(f, g, d.rules[SIGN]);
    }
  }

  lemma {:induction false} BoundIrrelevant(
      z: Scheme, nameOf: Id -> string, reg: Registry, rank: string -> nat, ids: set<string>, a: nat, b: nat,
        name: string)
    requires IsDarc(name) ==> rank(name) < a && rank(name) < b
    ensures IsValid(z, nameOf, reg, rank, ids, a, name) == IsValid(z, nameOf, reg, rank, ids, b, name)
  {
  }

  /** The answers solve the recursive equation of evalExpr: nothing is cut off by the bound. */
  lemma ValiditySolves(z: Scheme, nameOf: Id -> string, reg: Registry, rank: string -> nat, ids: set<string>,
      bound: nat, name: string)
    requires Acyclic(reg, rank) && (IsDarc(name) ==> rank(name) < bound)
    ensures IsValid(z, nameOf, reg, rank, ids, bound, name) ==
      Ask(z, nameOf, reg, ids, Validity(z, nameOf, reg, rank, ids, bound), name)
  {
    if IsDarc(name) && name in reg {
      var f: Asker := other => IsValid(z, nameOf, reg, rank, ids, rank(name), other);
      var g := Validity(z, nameOf, reg, rank, ids, bound);
      forall other | other in SignNames(reg[name]) ensures f(other) == g(other) {
        BoundIrrelevant(z, nameOf, reg, rank, ids, rank(name), bound, other);
      }
      AskAgrees(z, nameOf, reg[name], f, g);
    }
  }

  /** Any answers that solve it. */
  ghost predicate Solves(z: Scheme, nameOf: Id -> string, reg: Registry, ids: set<string>, f: Asker) {
    forall name :: f(name) == Ask(z, nameOf, reg, ids, f, name)
  }

  /** There are answers that do. */
  lemma SolutionExists(z: Scheme, nameOf: Id -> string, reg: Registry, rank: string -> nat, ids: set<string>)
      returns (f: Asker)
    requires Acyclic(reg, rank)
    ensures Solves(z, nameOf, reg, ids, f)
  {
    hide AskDarc, Verified, NamesSum, Judge, IsDarc;
    f := name => IsValid(z, nameOf, reg, rank, ids, rank(name) + 1, name);
    forall name ensures f(name) == Ask(z, nameOf, reg, ids, f, name) {
      var bound := rank(name) + 1;
      ValiditySolves(z, nameOf, reg, rank, ids, bound, name);
      if IsDarc(name) && name in reg {
        var g := Validity(z, nameOf, reg, rank, ids, bound);
        forall other | other in SignNames(reg[name]) ensures f(other) == g(other) {
          BoundIrrelevant(z, nameOf, reg, rank, ids, rank(other) + 1, bound, other);
        }
        AskAgrees(z, nameOf, reg[name], f, g);
      }
    }
  }

  /** They are the only answers that do. */
  lemma {:induction false} SolutionUnique(
      z: Scheme, nameOf: Id -> string, reg: Registry, rank: string -> nat, ids: set<string>, f: Asker, bound: nat,
        name: string)
    requires Acyclic(reg, rank) && Solves(z, nameOf, reg, ids, f) && (IsDarc(name) ==> rank(name) < bound)
    ensures f(name) == IsValid(z, nameOf, reg, rank, ids, bound, name)
    decreases bound
  {
    assert f(name) == Ask(z, nameOf, reg, ids, f, name);
    if IsDarc(name) && name in reg {
      var g: Asker := other => IsValid(z, nameOf, reg, rank, ids, rank(name), other);
      forall other | other in SignNames(reg[name]) ensures f(other) == g(other) {
        SolutionUnique(z, nameOf, reg, rank, ids, f, rank(name), other);
      }
      AskAgrees(z, nameOf, reg[name], f, g);
    }
  }

  /** More identities never make a valid one invalid, nor do they make a difference to crashes. */
  lemma {:induction false} ValidMonotone(
      z: Scheme, nameOf: Id -> string, reg: Registry, rank: string -> nat, ids: set<string>, more: set<string>,
        bound: nat, name: string)
    requires ids <= more
    ensures IsValid(z, nameOf, reg, rank, ids, bound, name) == Accept ==>
      IsValid(z, nameOf, reg, rank, more, bound, name) == Accept
    ensures IsValid(z, nameOf, reg, rank, ids, bound, name) == Crash <==>
      IsValid(z, nameOf, reg, rank, more, bound, name) == Crash
    decreases bound
  {
    if IsDarc(name) && name in reg && rank(name) < bound && SIGN in reg[name].rules {
      var f: Asker := other => IsValid(z, nameOf, reg, rank, ids, rank(name), other);
      var g: Asker := other => IsValid(z, nameOf, reg, rank, more, rank(name), other);
      forall other ensures (f(other) == Accept ==> g(other) == Accept) && (f(other) == Crash <==> g(other) == Crash) {
        ValidMonotone(z, nameOf, reg, rank, ids, more, rank(name), other);
      }
      JudgeMonotone(f, g, reg[name].rules[SIGN]);
    }
  }

  /** evalExpr, for delegation whose ranks are below a bound */
  function EvalExpr(z: Scheme, nameOf: Id -> string, reg: Registry, rank: string -> nat, bound: nat, expr: string,
      ids: set<string>): Check {
    Judge(Validity(z, nameOf, reg, rank, ids, bound), expr)
  }

  /** An expression is accepted, rejected, or crashes, exactly as it does under every solution. */
  lemma EvalExprMeaning(z: Scheme, nameOf: Id -> string, reg: Registry, rank: string -> nat, bound: nat,
                        expr: string, ids: set<string>, f: Asker)
    requires Acyclic(reg, rank) && Solves(z, nameOf, reg, ids, f)
    requires forall name :: name in NamesSum(expr) && IsDarc(name) ==> rank(name) < bound
    ensures EvalExpr(z, nameOf, reg, rank, bound, expr, ids) == Judge(f, expr)
    ensures EvalExpr(z, nameOf, reg, rank, bound, expr, ids) == Accept <==>
      (forall name :: name in NamesSum(expr) ==> f(name) != Crash) && Evaluate(Accepts(f), expr) == Value(true)
  {
    var g := Validity(z, nameOf, reg, rank, ids, bound);
    forall name | name in NamesSum(expr) ensures f(name) == g(name) {
      SolutionUnique(z, nameOf, reg, rank, ids, f, bound, name);
    }
    JudgeAgrees(f, g, expr);
    JudgeIs(f, expr);
  }

  /** Adding signers never turns acceptance into rejection, nor into a crash. */
  lemma EvalExprMonotone(z: Scheme, nameOf: Id -> string, reg: Registry, rank: string -> nat, bound: nat,
                         expr: string, ids: set<string>, more: set<string>)
    requires ids <= more
    ensures EvalExpr(z, nameOf, reg, rank, bound, expr, ids) == Accept ==>
      EvalExpr(z, nameOf, reg, rank, bound, expr, more) == Accept
    ensures EvalExpr(z, nameOf, reg, rank, bound, expr, ids) == Crash <==>
      EvalExpr(z, nameOf, reg, rank, bound, expr, more) == Crash
  {
    var f, g := Validity(z, nameOf, reg, rank, ids, bound), Validity(z, nameOf, reg, rank, more, bound);
    forall name ensures (f(name) == Accept ==> g(name) == Accept) && (f(name) == Crash <==> g(name) == Crash) {
      ValidMonotone(z, nameOf, reg, rank, ids, more, bound, name);
    }
    JudgeMonotone(f, g, expr);
  }

  // ---- when an evaluation crashes ----

  /** Asking about `name` comes to verifying the darc `target`: every darc on the way is known and
      verifies, and its `_sign` expression refers to the next. */
  ghost predicate Consults(z: Scheme, nameOf: Id -> string, reg: Registry, rank: string -> nat, bound: nat,
      name: string, target: string)
    decreases bound
  {
    && IsDarc(name) && name in reg && rank(name) < bound
    && (name == target ||
         (Verified(z, nameOf, reg[name]) == Accept
          && exists other ::
               other in SignNames(reg[name]) && Consults(z, nameOf, reg, rank, rank(name), other, target)))
  }

  ghost predicate ConsultsBroken(z: Scheme, nameOf: Id -> string, reg: Registry, rank: string -> nat, bound: nat,
      name: string) {
    exists target :: target in reg && Broken(reg[target]) && Consults(z, nameOf, reg, rank, bound, name, target)
  }

  lemma {:induction false} ValidCrashes(
      z: Scheme, nameOf: Id -> string, reg: Registry, rank: string -> nat, ids: set<string>, bound: nat, name: string)
    ensures IsValid(z, nameOf, reg, rank, ids, bound, name) == Crash <==>
      ConsultsBroken(z, nameOf, reg, rank, bound, name)
    decreases bound
  {
    hide Verified, NamesSum, Judge, IsDarc, Evaluate;
    if IsDarc(name) && name in reg && rank(name) < bound {
      VerifiedCrashes(z, nameOf, reg[name]);
      var f: Asker := other => IsValid(z, nameOf, reg, rank, ids, rank(name), other);
      forall other ensures f(other) == Crash <==> ConsultsBroken(z, nameOf, reg, rank, rank(name), other) {
        ValidCrashes(z, nameOf, reg, rank, ids, rank(name), other);
      }
      if SIGN in reg[name].rules {
        JudgeIs(f, reg[name].rules[SIGN]);
      }
      if Verified(z, nameOf, reg[name]) == Accept && CrashesOn(f, SignNames(reg[name])) {
        var other :| other in SignNames(reg[name]) && f(other) == Crash;
        var target :| target in reg && Broken(reg[target]) && Consults(z, nameOf, reg, rank, rank(name), other,
          target);
        assert Consults(z, nameOf, reg, rank, bound, name, target);
      }
      if target :|
          target in reg && Broken(reg[target]) && target != name
          && Consults(z, nameOf, reg, rank, bound, name, target) {
        var other :| other in SignNames(reg[name]) && Consults(z, nameOf, reg, rank, rank(name), other, target);
        assert ConsultsBroken(z, nameOf, reg, rank, rank(name), other) && f(other) == Crash;
      } else if Broken(reg[name]) {
        assert Consults(z, nameOf, reg, rank, bound, name, name);
      }
    }
  }

  /** Evaluating an expression crashes exactly if it comes to verifying a broken darc; it does
      not matter whether the expression is satisfied without that darc. */
  lemma EvalExprCrashes(z: Scheme, nameOf: Id -> string, reg: Registry, rank: string -> nat, bound: nat,
                        expr: string, ids: set<string>)
    ensures EvalExpr(z, nameOf, reg, rank, bound, expr, ids) == Crash <==>
      exists name :: name in NamesSum(expr) && ConsultsBroken(z, nameOf, reg, rank, bound, name)
  {
    var f := Validity(z, nameOf, reg, rank, ids, bound);
    JudgeIs(f, expr);
    forall name ensures f(name) == Crash <==> ConsultsBroken(z, nameOf, reg, rank, bound, name) {
      ValidCrashes(z, nameOf, reg, rank, ids, bound, name);
    }
    if name :| name in NamesSum(expr) && ConsultsBroken(z, nameOf, reg, rank, bound, name) {
      assert f(name) == Crash;
    }
  }

  /** a:a | darc:00 crashes although a:a is listed, if the darc is broken; */
  lemma CrashBesideListed(z: Scheme, nameOf: Id -> string, d: Darc, ids: set<string>)
    requires Broken(d) && "a:a" in ids
    ensures EvalExpr(z, nameOf, map["darc:00" := d], name => 0, 1, "a:a | darc:00", ids) == Crash
  {
    hide IsId, IsDarc, NamesSum, EvalExpr, Broken;
    var reg: Registry := map["darc:00" := d];
    SmallIds();
    DarcId();
    assert "a:a" + " | " + "darc:00" == "a:a | darc:00";
    EitherNames("a:a", "darc:00");
    assert Consults(z, nameOf, reg, name => 0, 1, "darc:00", "darc:00");
    EvalExprCrashes(z, nameOf, reg, name => 0, 1, "a:a | darc:00", ids);
  }

  /** left alone it is accepted. */
  lemma AcceptBesideUnknown(ids: set<string>)
    requires "a:a" in ids
    ensures EvalAlone("a:a | darc:00", ids) == Accept
  {
    hide IsId, PrintChain, Evaluate, IsDarc, NamesSum, FoldLeft;
    var f := Listed(ids);
    var links := [Link(Or, Id("darc:00"))];
    SmallIds();
    DarcId();
    EitherPrints(links);
    JudgeIs(f, "a:a | darc:00");
    EvaluateChain(Accepts(f), Id("a:a"), links);
    EitherTerms(Accepts(f), links);
  }

  lemma EitherPrints(links: seq<Link>)
    requires links == [Link(Or, Id("darc:00"))]
    ensures PrintChain(Id("a:a"), links) == "a:a | darc:00"
  {
    assert links[1..] == [];
    assert "a:a" + " | " + "darc:00" == "a:a | darc:00";
  }

  lemma EitherTerms(fn: Checker, links: seq<Link>)
    requires links == [Link(Or, Id("darc:00"))]
    ensures FoldLeft(true, Terms(fn, links))
  {
    assert Terms(fn, links)[1..] == [];
  }

  lemma DarcId()
    ensures IsId("darc:00") && IsDarc("darc:00") && !IsDarc("a:a")
  {
    forall c: char ensures (IsAlnum(c) <==> c in LETTERS) && (IsHex(c) <==> c in DIGITS) {
      Classes(c);
    }
    assert IdParts("darc:00", "darc", "00");
  }

  /** There are such darcs: version 2 after version 1, and no genesis darc. */
  lemma BrokenDarc()
    ensures
      var first := Darc(1, [], Other([]), map[], [], Unset, []);
      Broken(Darc(2, [], Other([]), map[], [first], Unset, [Signature("a:a", [])]))
  {
  }

  // ---- evolving a darc ----

  /** EvolveFrom; an empty path is an error. */
  function EvolveFrom(d: Darc, path: seq<Darc>): Option<Darc> {
    if path == [] then None
    else
      var prev := path[|path| - 1];
      Some(d.(version := NextVersion(prev.version), baseId := GetBaseId(prev), path := path,
        pathDigest := HashPath(path)))
  }

  /** A request, and the serialised darc that goes with it. */
  datatype Request = Request(base: Id, action: string, msg: Id, identities: seq<string>, signatures: seq<Bytes>)

  /** What is serialised: everything but the path and the signatures. */
  function Copy(d: Darc): Darc {
    d.(path := [], signatures := [])
  }

  /** MakeEvolveRequest; no signers are an error. */
  function MakeEvolveRequest(z: Scheme, d: Darc, signers: seq<string>): Option<Request> {
    if signers == [] then None
    else
      var digest := RequestDigest(GetBaseId(d), EVOLVE, GetId(d), signers);
      Some(Request(GetBaseId(d), EVOLVE, GetId(d), signers, SignAll(z, digest, signers)))
  }

  function SignAll(z: Scheme, digest: RequestDigest, signers: seq<string>): (sigs: seq<Bytes>)
    ensures |sigs| == |signers|
  {
    seq(|signers|, i requires 0 <= i < |signers| => z.sign(signers[i], digest))
  }

  function WithSignatures(r: Request): (sigs: seq<Signature>)
    requires |r.signatures| == |r.identities|
    ensures |sigs| == |r.identities|
  {
    seq(|r.signatures|, i requires 0 <= i < |r.signatures| => Signature(r.identities[i], r.signatures[i]))
  }

  /** MsgToDarc on a darc that has been decoded; None is an error. */
  function MsgToDarc(r: Request, decoded: Darc, existing: seq<Darc>): Option<Darc> {
    if GetId(decoded) != r.msg then None
    else if |r.signatures| != |r.identities| then None
    else if HashPath(existing) != decoded.pathDigest then None
    else Some(decoded.(signatures := WithSignatures(r), path := existing))
  }

  ghost predicate SchemeOk(z: Scheme, signers: seq<string>) {
    forall i, digest :: 0 <= i < |signers| ==> z.verify(signers[i], digest, z.sign(signers[i], digest))
  }

  /** The request is made on the digest that the verification of the darc recomputes. */
  lemma DigestsCoincide(z: Scheme, d: Darc, signers: seq<string>, d': Darc)
    requires signers != [] && MsgToDarc(MakeEvolveRequest(z, d, signers).value, Copy(d), d.path) == Some(d')
    ensures SignedDigest(d') == RequestDigest(GetBaseId(d), EVOLVE, GetId(d), signers)
    ensures forall i :: 0 <= i < |signers| ==>
      d'.signatures[i] == Signature(signers[i], z.sign(signers[i], SignedDigest(d')))
  {
    assert Names(d'.signatures) == signers;
  }

  ghost function SignersOf(signers: seq<string>): set<string> {
    set i | 0 <= i < |signers| :: signers[i]
  }

  /** Evolving a verified path and reading the request back gives a darc whose verification comes
      to evaluating the `_evolve` expression of the latest darc for the signers. */
  lemma EvolveRoundTrip(z: Scheme, ev: Evaluator, nameOf: Id -> string, reg: Registry, path: seq<Darc>, draft: Darc,
      signers: seq<string>)
    requires path != [] && |path| < TWO_64 && path[0].version == 0 && Chain(z, ev, path)
    requires signers != [] && SchemeOk(z, signers)
    ensures EvolveFrom(draft, path).Some?
    ensures
      var d := EvolveFrom(draft, path).value;
      var request := MakeEvolveRequest(z, d, signers);
      && request.Some? && request.value.base == GetId(path[0]) && request.value.action == "_evolve"
      && request.value.msg == GetId(d) && request.value.identities == signers
      && MsgToDarc(request.value, Copy(d), path).Some?
      && var d' := MsgToDarc(request.value, Copy(d), path).value;
      && d'.version == |path| && GetId(d') == GetId(d) && d'.baseId == GetId(path[0]) && d'.path == path
      && d'.rules == draft.rules && d'.description == draft.description
      && |d'.signatures| == |signers| && (forall i :: 0 <= i < |signers| ==> d'.signatures[i].signer == signers[i])
      && VerifyWith(z, ev, nameOf, reg, d') == ev(Policy(path[|path| - 1]), SignersOf(signers))
  {
    var n := |path|;
    var prev := path[n - 1];
    ChainFacts(z, ev, path, n - 1);
    var d := EvolveFrom(draft, path).value;
    var request := MakeEvolveRequest(z, d, signers).value;
    var d' := MsgToDarc(request, Copy(d), path).value;
    DigestsCoincide(z, d, signers, d');
    assert Signers(d') == SignersOf(signers) by {
      assert forall i :: 0 <= i < |signers| ==> d'.signatures[i].signer == signers[i];
    }
    assert d'.version == n && d'.baseId == GetId(path[0]);
    AcceptedChain(z, ev, nameOf, reg, d');
    ChainSnoc(z, ev, path, d');
    NeverStumbles(z, ev, path);
    assert AllSigned(z, d');
  }

  /** Evolving as a whole: the draft is set up, signed for, sent and read back. */
  function Evolve(z: Scheme, draft: Darc, path: seq<Darc>, signers: seq<string>): Option<Darc> {
    match EvolveFrom(draft, path)
    case None => None
    case Some(d) =>
      match MakeEvolveRequest(z, d, signers)
      case None => None
      case Some(request) => MsgToDarc(request, Copy(d), path)
  }

  /** The policy of the draft takes effect with the next evolution: if the last policy of the path
      admits the signers, whoever evolves the new darc has to satisfy the expression of the draft. */
  lemma EvolveTwice(z: Scheme, ev: Evaluator, nameOf: Id -> string, reg: Registry, path: seq<Darc>, draft: Darc,
      signers: seq<string>, next: Darc, others: seq<string>)
    requires path != [] && |path| + 1 < TWO_64 && path[0].version == 0 && Chain(z, ev, path)
    requires signers != [] && SchemeOk(z, signers) && others != [] && SchemeOk(z, others)
    requires ev(Policy(path[|path| - 1]), SignersOf(signers)) == Accept
    ensures Evolve(z, draft, path, signers).Some?
    ensures
      var longer := path + [Evolve(z, draft, path, signers).value];
      && Evolve(z, next, longer, others).Some?
      && var d := Evolve(z, next, longer, others).value;
      && d.version == |path| + 1 && d.rules == next.rules && d.baseId == GetId(path[0])
      && VerifyWith(z, ev, nameOf, reg, d) ==
           ev(if "_evolve" in draft.rules then draft.rules["_evolve"] else "", SignersOf(others))
  {
    hide Chain, VerifyWith, GetId, SchemeOk, EvolveFrom, MakeEvolveRequest, MsgToDarc;
    EvolveRoundTrip(z, ev, nameOf, reg, path, draft, signers);
    var d := Evolve(z, draft, path, signers).value;
    AcceptedPath(z, ev, nameOf, reg, path, d);
    assert (path + [d])[0] == path[0];
    EvolveRoundTrip(z, ev, nameOf, reg, path + [d], next, others);
  }

  lemma AcceptedPath(z: Scheme, ev: Evaluator, nameOf: Id -> string, reg: Registry, path: seq<Darc>, d: Darc)
    requires d.version != 0 && d.path == path != [] && VerifyWith(z, ev, nameOf, reg, d) == Accept
    ensures Chain(z, ev, path + [d])
  {
    AcceptedChain(z, ev, nameOf, reg, d);
  }

  /** Darcs with the same ID agree in everything but their signatures and the path itself. */
  lemma SameId(a: Darc, b: Darc)
    requires GetId(a) == GetId(b)
    ensures a.version == b.version && a.description == b.description && a.rules == b.rules
    ensures a.baseId == b.baseId && a.pathDigest == b.pathDigest
  {
  }

  /** Paths with the same digest are paths of the same darcs, in the same order. */
  lemma SameDigest(a: seq<Darc>, b: seq<Darc>)
    requires HashPath(a) == HashPath(b)
    ensures |a| == |b| && forall i :: 0 <= i < |a| ==> GetId(a[i]) == GetId(b[i])
  {
    assert |Ids(a)| == |Ids(b)|;
    forall i | 0 <= i < |a| ensures GetId(a[i]) == GetId(b[i]) {
      assert Ids(a)[i] == Ids(b)[i];
    }
  }

  /** A darc is read back only if it is the one that was signed for, and comes after the same path. */
  lemma Untampered(z: Scheme, d: Darc, signers: seq<string>, decoded: Darc, existing: seq<Darc>)
    requires signers != [] && MsgToDarc(MakeEvolveRequest(z, d, signers).value, decoded, existing).Some?
    ensures
      var d' := MsgToDarc(MakeEvolveRequest(z, d, signers).value, decoded, existing).value;
      && d'.version == d.version && d'.description == d.description && d'.rules == d.rules && d'.baseId == d.baseId
      && d'.path == existing && d.pathDigest == HashPath(existing)
    ensures d.pathDigest == HashPath(d.path) ==>
      |existing| == |d.path| && forall i :: 0 <= i < |existing| ==> GetId(existing[i]) == GetId(d.path[i])
  {
    SameId(decoded, d);
    if d.pathDigest == HashPath(d.path) {
      SameDigest(existing, d.path);
    }
  }

  // ---- finding the path of a darc ----

  lemma {:induction false} OlderIs(version: nat, all: seq<Darc>, first: nat)
    requires forall i :: 0 <= i < |all| ==> all[i].version == first + i
    ensures OlderThan(version, all) ==
      if version <= first then [] else if version - first < |all| then all[..version - first] else all
    decreases |all|
  {
    if all != [] && first < version {
      OlderIs(version, all[1..], first + 1);
      var rest := OlderThan(version, all[1..]);
      assert all == [all[0]] + all[1..];
      if version - first < |all| {
        assert all[..version - first] == [all[0]] + all[1..][..version - first - 1];
      }
    }
  }

  /** A darc that was sent without its path is given the one it was made with, from the latest
      darc with its base ID, whose path it extends; the path digest tells whether it is. */
  lemma PathFound(nameOf: Id -> string, reg: Registry, d: Darc, all: seq<Darc>)
    requires d.path == [] && 0 < d.version <= |all| && forall i :: 0 <= i < |all| ==> all[i].version == i
    requires nameOf(GetBaseId(d)) in reg && reg[nameOf(GetBaseId(d))].path == all
    ensures FindPath(nameOf, reg, d) ==
      if d.pathDigest == DigestOf(Ids(all[..d.version])) then Some(all[..d.version]) else None
  {
    OlderIs(d.version, all, 0);
    assert d.version == |all| ==> all[..d.version] == all;
  }

  // ---- delegation by example ----

  lemma {:induction false} MeaningAgrees(f: Checker, g: Checker, e: Expr)
    requires forall name :: name in IdsOf(e) ==> f(name) == g(name)
    ensures Meaning(f, e) == Meaning(g, e)
  {
    match e
    case Id(_) =>
    case Bin(_, l, r) =>
      MeaningAgrees(f, g, l);
      MeaningAgrees(f, g, r);
  }

  /** Judging a printed tree none of whose identities crashes. */
  lemma JudgePrint(ask: Asker, ids: set<string>, e: Expr)
    requires Expression.WellFormed(e)
    requires forall name :: name in IdsOf(e) ==> ask(name) == if name in ids then Accept else Reject
    ensures Judge(ask, Print(e)) == if Meaning(name => name in ids, e) then Accept else Reject
  {
    JudgeIs(ask, Print(e));
    NamesOfTree(e);
    EvaluatePrint(Accepts(ask), e);
    MeaningAgrees(Accepts(ask), name => name in ids, e);
  }

  /** A name is that of a darc if it begins with those four letters. */
  lemma DarcNames(rest: string, name: string)
    ensures IsDarc("darc" + rest)
    ensures IsDarc(name) ==> name == "darc" + name[4..]
  {
    assert ("darc" + rest)[..4] == "darc";
  }

  /** Whoever satisfies the `_sign` expression of a darc that verifies may sign on its behalf, and
      nobody else; its `_evolve` expression has no say in this. */
  lemma SignDelegates(z: Scheme, nameOf: Id -> string, reg: Registry, rank: string -> nat, ids: set<string>,
      bound: nat, name: string, e: Expr)
    requires IsDarc(name) && name in reg && rank(name) < bound && Verified(z, nameOf, reg[name]) == Accept
    requires "_sign" in reg[name].rules && reg[name].rules["_sign"] == Print(e) && Expression.WellFormed(e)
    requires forall other :: other in IdsOf(e) ==> !IsDarc(other)
    ensures IsValid(z, nameOf, reg, rank, ids, bound, name) ==
      if Meaning(other => other in ids, e) then Accept else Reject
  {
    var f: Asker := other => IsValid(z, nameOf, reg, rank, ids, rank(name), other);
    JudgePrint(f, ids, e);
  }

  /** Nobody may sign on behalf of a darc that is not known, does not verify, or says nothing of
      signing; any other identity stands for itself. */
  lemma SignRefused(z: Scheme, nameOf: Id -> string, reg: Registry, rank: string -> nat, ids: set<string>, bound: nat,
      name: string)
    ensures !IsDarc(name) ==> IsValid(z, nameOf, reg, rank, ids, bound, name) == if name in ids then Accept else Reject
    ensures IsDarc(name) && (name !in reg || Verified(z, nameOf, reg[name]) == Reject) ==>
      IsValid(z, nameOf, reg, rank, ids, bound, name) == Reject
    ensures IsDarc(name) && name in reg && Verified(z, nameOf, reg[name]) != Crash && "_sign" !in reg[name].rules ==>
      IsValid(z, nameOf, reg, rank, ids, bound, name) == Reject
  {
  }

  /** A genesis darc for which a:a signs and b:b evolves: a:a may sign for it but not evolve it,
      and the other way round. */
  lemma SignOrEvolve(z: Scheme, nameOf: Id -> string, d: Darc)
    requires d.version == 0 && d.rules == map["_sign" := "a:a", "_evolve" := "b:b"]
    ensures
      var reg: Registry := map["darc:00" := d];
      var rank: string -> nat := name => 0;
      && EvalExpr(z, nameOf, reg, rank, 1, "darc:00", {"a:a"}) == Accept
      && EvalExpr(z, nameOf, reg, rank, 1, "darc:00", {"b:b"}) == Reject
    ensures EvalAlone(Policy(d), {"a:a"}) == Reject && EvalAlone(Policy(d), {"b:b"}) == Accept
  {
    hide IsId, IsDarc, Judge, IsValid;
    SmallIds();
    DarcId();
    SmallNames();
    var reg: Registry := map["darc:00" := d];
    var rank: string -> nat := name => 0;
    Delegated(z, nameOf, reg, rank, {"a:a"});
    Delegated(z, nameOf, reg, rank, {"b:b"});
    JudgePrint(Listed({"a:a"}), {"a:a"}, Id("b:b"));
    JudgePrint(Listed({"b:b"}), {"b:b"}, Id("b:b"));
  }

  lemma SmallNames()
    ensures !IsDarc("b:b") && "a:a" != "b:b"
  {
    assert "a:a"[0] != "b:b"[0];
  }

  lemma Delegated(z: Scheme, nameOf: Id -> string, reg: Registry, rank: string -> nat, ids: set<string>)
    requires "darc:00" in reg && rank("darc:00") == 0 && reg["darc:00"].version == 0
    requires "_sign" in reg["darc:00"].rules && reg["darc:00"].rules["_sign"] == "a:a"
    ensures EvalExpr(z, nameOf, reg, rank, 1, "darc:00", ids) == if "a:a" in ids then Accept else Reject
  {
    hide IsId, IsDarc, Judge, IsValid;
    SmallIds();
    DarcId();
    SignDelegates(z, nameOf, reg, rank, ids, 1, "darc:00", Id("a:a"));
    var f := Validity(z, nameOf, reg, rank, ids, 1);
    JudgeOne(f, "darc:00");
  }

  lemma JudgeOne(ask: Asker, name: string)
    requires IsId(name)
    ensures Judge(ask, name) == ask(name)
  {
    JudgeIs(ask, name);
    NamesOfTree(Id(name));
    EvaluatePrint(Accepts(ask), Id(name));
    assert Print(Id(name)) == name;
  }
}
