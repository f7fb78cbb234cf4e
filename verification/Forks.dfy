/** Forks and agent boxes: their names (internal/store/store.go) and the numbers
    Fork picks (internal/actor/changes.go). */
module Forks {
  import opened Names
  import opened Options

  // ------------------------------------------------------------------ numbers

  const MAX_INT: int := 0x7fff_ffff_ffff_ffff

  function Digit(d: nat): char
    requires d < 10
  {
    "0123456789"[d]
  }

  predicate IsDecimal(s: string) {
    s != "" && forall i | 0 <= i < |s| :: '0' <= s[i] <= '9'
  }

  /** strconv.Itoa. */
  function Itoa(n: nat): (s: string)
    ensures IsDecimal(s)
  {
    if n < 10 then [Digit(n)] else Itoa(n / 10) + [Digit(n % 10)]
  }

  function Decimal(s: string): nat
    requires forall i | 0 <= i < |s| :: '0' <= s[i] <= '9'
  {
    if s == "" then 0 else Decimal(s[..|s|-1]) * 10 + (s[|s|-1] - '0') as nat
  }

  lemma {:induction false} DecimalOfItoa(n: nat)
    ensures Decimal(Itoa(n)) == n
  {
    var s := Itoa(n);
    if n < 10 {
      assert s[..|s|-1] == "";
      assert Decimal("") == 0;
    } else {
      DecimalOfItoa(n / 10);
      assert s[..|s|-1] == Itoa(n / 10);
    }
  }

  /** strconv.Atoi: an optional sign, then digits, within an int. */
  function Atoi(s: string): Option<int> {
    var signed := s != "" && (s[0] == '-' || s[0] == '+');
    var digits := if signed then s[1..] else s;
    if !IsDecimal(digits) then None
    else
      var value: int := Decimal(digits);
      var n := if signed && s[0] == '-' then -value else value;
      if -MAX_INT - 1 <= n <= MAX_INT then Some(n) else None
  }

  // -------------------------------------------------------------------- names

  const INFIX := "-fork-"
  const AGENT := ".agent"

  predicate At(s: string, sub: string, i: int) {
    0 <= i <= |s| - |sub| && s[i..i+|sub|] == sub
  }

  /** strings.LastIndex, looking no further than i. */
  function LastIndex(s: string, sub: string, i: int): (r: int)
    requires i <= |s| - |sub|
    ensures r == -1 || (r <= i && At(s, sub, r))
    ensures forall k | r < k <= i :: !At(s, sub, k)
    decreases i + 1
  {
    if i < 0 then -1 else if At(s, sub, i) then i else LastIndex(s, sub, i - 1)
  }

  function ForkID(id: string, n: nat): string {
    id + INFIX + Itoa(n)
  }

  datatype Fork = Fork(parent: string, n: nat)

  function ForkOf(fork: string): Option<Fork> {
    var i := LastIndex(fork, INFIX, |fork| - |INFIX|);
    if i <= 0 then None
    else
      var digits := fork[i+|INFIX|..];
      var n := Atoi(digits);
      if n.None? || n.value < 1 || Itoa(n.value) != digits then None
      else Some(Fork(fork[..i], n.value))
  }

  /** The infix's last place in a fork's ID is where it was put. */
  lemma InfixAt(id: string, n: nat, k: int)
    requires k > |id|
    ensures At(ForkID(id, n), INFIX, |id|) && !At(ForkID(id, n), INFIX, k)
  {
    var s, digits := ForkID(id, n), Itoa(n);
    hide Itoa;
    assert s[|id|..|id|+6] == INFIX;
    assert s[|id|+6..] == digits;
    if k + 6 <= |s| {
      assert s[k..k+6][5] == s[k+5] == digits[k - |id| - 1];
      assert INFIX[5] == '-';
    }
  }

  lemma LastInfix(id: string, n: nat)
    ensures LastIndex(ForkID(id, n), INFIX, |ForkID(id, n)| - |INFIX|) == |id|
  {
    hide LastIndex, Itoa, At;
    var s := ForkID(id, n);
    var i := LastIndex(s, INFIX, |s| - |INFIX|);
    InfixAt(id, n, |id| + 1);
    if i > |id| {
      InfixAt(id, n, i);
    }
  }

  /** ForkOf is the inverse of ForkID. */
  lemma ForkOfForkID(id: string, n: nat)
    requires id != "" && 1 <= n <= MAX_INT
    ensures ForkOf(ForkID(id, n)) == Some(Fork(id, n))
  {
    hide LastIndex, Itoa, At, Decimal;
    var s := ForkID(id, n);
    LastInfix(id, n);
    DecimalOfItoa(n);
    assert s[|id|+|INFIX|..] == Itoa(n) && s[..|id|] == id;
  }

  /** And of nothing else. */
  lemma ForkIDOfFork(fork: string)
    requires ForkOf(fork).Some?
    ensures var f := ForkOf(fork).value;
      f.parent != "" && 1 <= f.n <= MAX_INT && ForkID(f.parent, f.n) == fork
  {
    hide LastIndex, Itoa;
    var i := LastIndex(fork, INFIX, |fork| - |INFIX|);
    assert At(fork, INFIX, i);
    assert fork == fork[..i] + fork[i..i+6] + fork[i+6..];
  }

  // -------------------------------------------------------------- agent boxes

  function AgentBox(id: string): string {
    id + AGENT
  }

  predicate IsAgentBox(box: string) {
    |box| >= |AGENT| && box[|box|-|AGENT|..] == AGENT
  }

  function EnvOfBox(box: string): string {
    if IsAgentBox(box) then box[..|box|-|AGENT|] else box
  }

  lemma EnvOfAgentBox(id: string)
    ensures IsAgentBox(AgentBox(id)) && EnvOfBox(AgentBox(id)) == id
  {
    var box := AgentBox(id);
    assert box[|id|..] == AGENT && box[..|id|] == id;
  }

  /** An environment's box is its own, and no environment is named like an
      agent box. */
  lemma BoxesApart(id: string)
    requires ValidEnvID(id)
    ensures EnvOfBox(id) == id && !IsAgentBox(id) && !ValidEnvID(AgentBox(id))
  {
    if IsAgentBox(id) {
      assert id[|id|-|AGENT|] == id[|id|-|AGENT|..][0] == '.';
    }
    assert AgentBox(id)[|id|] == '.';
  }

  // --------------------------------------------------------------------- Fork

  const MAX_FORKS := 8

  /** forks are the n for which ids has id-fork-n. */
  ghost predicate AreForks(ids: set<string>, id: string, forks: set<nat>) {
    && (forall n | n in forks :: 1 <= n <= MAX_INT && ForkID(id, n) in ids)
    && (forall env | env in ids && ForkOf(env).Some? && ForkOf(env).value.parent == id :: ForkOf(env).value.n in forks)
  }

  /** The given numbers, in order, are the smallest positive ones not in use. */
  ghost predicate AreSmallestFree(ns: seq<nat>, used: set<nat>) {
    && (forall i | 0 <= i < |ns| :: ns[i] >= 1 && ns[i] !in used)
    && (forall i, k | 0 <= i < k < |ns| :: ns[i] < ns[k])
    && (forall i, n: nat | 0 <= i < |ns| && 1 <= n < ns[i] :: n in used || n in ns[..i])
  }

  /** So many numbers below n cannot all be in the two sets. */
  lemma {:induction false} Pigeonhole(n: nat, s: set<nat>)
    requires forall k | 1 <= k < n :: k in s
    ensures n - 1 <= |s|
  {
    if n > 1 {
      var rest := s - {n - 1};
      Pigeonhole(n - 1, rest);
    }
  }

  function Made(id: string, ns: seq<nat>): set<string> {
    set i | 0 <= i < |ns| :: ForkID(id, ns[i])
  }

  lemma MadeMore(id: string, ns: seq<nat>, n: nat)
    ensures Made(id, []) == {} && Made(id, ns + [n]) == Made(id, ns) + {ForkID(id, n)}
    ensures IDs(id, []) == [] && IDs(id, ns + [n]) == IDs(id, ns) + [ForkID(id, n)]
  {
    hide ForkID;
    var more := ns + [n];
    assert more[|ns|] == n && forall i | 0 <= i < |ns| :: more[i] == ns[i];
    forall f | f in Made(id, ns) + {ForkID(id, n)} ensures f in Made(id, more) {
      if f in Made(id, ns) {
        var i :| 0 <= i < |ns| && f == ForkID(id, ns[i]);
        assert f == ForkID(id, more[i]);
      } else {
        assert f == ForkID(id, more[|ns|]);
      }
    }
  }

  function IDs(id: string, ns: seq<nat>): seq<string> {
    seq(|ns|, i requires 0 <= i < |ns| => ForkID(id, ns[i]))
  }

  /** The environments, as Fork sees them. */
  class Envs {
    var ids: set<string>
    var creates: seq<bool> // whether the next ones succeed

    method Create(id: string) returns (ok: bool)
      modifies this
      ensures ids == old(ids) + if ok then {id} else {}
      ensures ok == (old(creates) != [] && old(creates)[0])
      ensures creates == if old(creates) == [] then [] else old(creates)[1..]
    {
      ok := creates != [] && creates[0];
      creates := if creates == [] then [] else creates[1..];
      ids := if ok then ids + {id} else ids;
    }

    /** forks. */
    method ForksOf(id: string) returns (forks: set<nat>)
      requires id != ""
      ensures AreForks(ids, id, forks)
    {
      hide ForkOf, ForkID;
      forks := {};
      var left := ids;
      while left != {}
        invariant left <= ids && AreForks(ids - left, id, forks)
        decreases left
      {
        var env :| env in left;
        left := left - {env};
        var fork := ForkOf(env);
        if fork.Some? && fork.value.parent == id {
          ForkIDOfFork(env);
          forks := forks + {fork.value.n};
        }
      }
      assert ids - left == ids;
    }

    /** Fork. It fails if the count is out of range, the environment is not
        there or would have too many forks, or a create fails; the forks
        made until then stay. */
    method MakeForks(id: string, count: int) returns (r: Option<seq<string>>, ghost used: set<nat>, ghost ns: seq<nat>)
      requires id != ""
      modifies this
      ensures AreForks(old(ids), id, used) && AreSmallestFree(ns, used)
      ensures ids == old(ids) + Made(id, ns)
      ensures forall i | 0 <= i < |ns| :: ForkID(id, ns[i]) !in old(ids) && ns[i] <= MAX_FORKS
      ensures ns != [] ==> |used| + |ns| <= MAX_FORKS
      ensures r.Some? ==> |ns| == count >= 1 && r.value == IDs(id, ns)
      ensures r.Some? ==> id in old(ids) && |used| + count <= MAX_FORKS
      // It fails for these reasons alone, or at the first create that does.
      ensures r.None? ==>
        || count < 1 || count > 8 || id !in old(ids) || |used| + count > 8
        || (|ns| < count && !(|ns| < |old(creates)| && old(creates)[|ns|]))
    {
      hide ForkOf, ForkID, Made, IDs, AreForks, AreSmallestFree, AllBelow;
      MadeMore(id, [], 0);
      NoneYet({});
      r, ns := None, [];
      used := {};
      var forks := ForksOf(id);
      used := forks;
      NoneYet(used);
      if count < 1 || count > MAX_FORKS || id !in ids || |forks| + count > MAX_FORKS {
        return;
      }
      var made: seq<string> := [];
      var n := 1;
      while |made| < count
        invariant |made| == |ns| <= count && made == IDs(id, ns) && n >= 1
        invariant AreSmallestFree(ns, used) && AllBelow(ns, used, n)
        invariant |ns| <= |old(creates)| && creates == old(creates)[|ns|..]
        invariant ids == old(ids) + Made(id, ns)
        invariant forall i | 0 <= i < |ns| :: ForkID(id, ns[i]) !in old(ids) && ns[i] <= MAX_FORKS
        decreases MAX_FORKS + 1 - n
      {
        Ends(n, ns, used, count);
        if n !in forks {
          var fork := ForkID(id, n);
          NewFork(old(ids), id, used, n);
          var ok := Create(fork);
          if !ok {
            return;
          }
          made := made + [fork];
          CreatesLeft(old(creates), |ns|);
          NextFree(ns, used, n);
          MadeMore(id, ns, n);
          ns := ns + [n];
        }
        NextUsed(ns, used, n);
        n := n + 1;
      }
      r := Some(made);
    }
  }

  /** Every number below n is in use or has been picked. */
  ghost predicate AllBelow(ns: seq<nat>, used: set<nat>, n: nat) {
    && (forall k | 1 <= k < n :: k in used || k in ns)
    && (forall i | 0 <= i < |ns| :: ns[i] < n)
  }

  lemma Ends(n: nat, ns: seq<nat>, used: set<nat>, count: nat)
    requires n >= 1 && AllBelow(ns, used, n) && |ns| < count && |used| + count <= MAX_FORKS
    ensures n <= MAX_FORKS
  {
    Pigeonhole(n, used + Elements(ns));
  }

  function Elements(ns: seq<nat>): (s: set<nat>)
    ensures |s| <= |ns| && forall k | k in ns :: k in s
  {
    if ns == [] then {} else Elements(ns[..|ns|-1]) + {ns[|ns|-1]}
  }

  lemma NoneYet(used: set<nat>)
    ensures AreSmallestFree([], used) && AllBelow([], used, 1)
  {
  }

  lemma NextUsed(ns: seq<nat>, used: set<nat>, n: nat)
    requires n >= 1
    ensures AllBelow(ns, used, n) && (n in used || n in ns) ==> AllBelow(ns, used, n + 1)
  {
  }

  lemma CreatesLeft(creates: seq<bool>, k: nat)
    requires k < |creates|
    ensures creates[k..] != [] && creates[k..][0] == creates[k] && creates[k..][1..] == creates[k+1..]
  {
  }

  lemma NextFree(ns: seq<nat>, used: set<nat>, n: nat)
    requires n >= 1 && AreSmallestFree(ns, used) && AllBelow(ns, used, n) && n !in used
    ensures AreSmallestFree(ns + [n], used) && AllBelow(ns + [n], used, n + 1)
  {
    var next := ns + [n];
    forall i, k: nat | 0 <= i < |next| && 1 <= k < next[i] ensures k in used || k in next[..i] {
      assert next[..i] == ns[..i];
      assert ns[..|ns|] == ns;
    }
    assert next[|ns|] == n;
    forall k | 1 <= k < n + 1 ensures k in used || k in next {
      assert k in ns ==> k in next;
    }
  }

  lemma NewFork(ids: set<string>, id: string, used: set<nat>, n: nat)
    requires AreForks(ids, id, used) && n !in used && 1 <= n <= MAX_FORKS && id != ""
    ensures ForkID(id, n) !in ids
  {
    hide ForkOf, ForkID;
    ForkOfForkID(id, n);
  }
}
