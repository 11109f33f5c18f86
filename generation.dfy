/**
 * Synthetic user generation: the thread count, the grouping of slot indices by
 * remainder, one record per slot, and the flattened result. The worker pool is left
 * out; the groups are generated one after another and their results concatenated.
 */
module UserGeneration {
  import opened Sequences
  import opened Roles
  import opened Entities

  /** Indices per worker before a second worker is used. */
  const GenerationBatchSize: int := 1000

  /** Java's `int` division, which truncates toward zero. */
  function JavaDiv(a: int, b: int): int
    requires b > 0
  {
    if a >= 0 then a / b else -((-a) / b)
  }

  /**
   * The number of groups: one per 1000 requested records, capped at the number of
   * available processors, and never below one.
   */
  function NumThreads(count: int, procs: int): (n: int)
    ensures 1 <= n <= Max(1, procs)
    ensures n > 1 ==> n * GenerationBatchSize <= count
    ensures count < 2 * GenerationBatchSize ==> n == 1
    ensures 1 <= procs && procs * GenerationBatchSize <= count ==> n == procs
    ensures n < Max(1, procs) ==> (n + 1) * GenerationBatchSize > count
  {
    Max(1, Min(JavaDiv(count, GenerationBatchSize), procs))
  }

  /** The indices in [from, count) whose remainder modulo n is k, in ascending order. */
  function GroupFrom(from: int, count: int, n: int, k: int): (g: seq<int>)
    requires n >= 1
    decreases count - from
    ensures forall x :: x in g <==> from <= x < count && x % n == k
    ensures Distinct(g)
  {
    if from >= count then []
    else
      var rest := GroupFrom(from + 1, count, n, k);
      if from % n == k then AppendDistinct([from], rest); [from] + rest else rest
  }

  /**
   * The groups the indices 0 .. count - 1 fall into under `i % n`: one group per
   * remainder that actually occurs, so there are min(n, count) of them.
   */
  function Partition(count: int, n: int): (groups: seq<seq<int>>)
    requires n >= 1
    ensures |groups| == if count <= 0 then 0 else Min(n, count)
  {
    var keys := if count <= 0 then 0 else Min(n, count);
    seq(keys, k requires 0 <= k < keys => GroupFrom(0, count, n, k))
  }

  /** Group k holds exactly the indices below count with remainder k, and is never empty. */
  lemma PartitionGroups(count: int, n: int, k: int)
    requires n >= 1
    requires 0 <= k < |Partition(count, n)|
    ensures forall x :: x in Partition(count, n)[k] <==> 0 <= x < count && x % n == k
    ensures k in Partition(count, n)[k]
  {
    assert k < n && k < count;
    assert k % n == k;
  }

  /** Distinct groups share no index. */
  lemma PartitionDisjoint(count: int, n: int)
    requires n >= 1
    ensures forall j, l, x :: 0 <= j < l < |Partition(count, n)| && x in Partition(count, n)[j] ==> x !in Partition(count, n)[l]
  {
  }

  /** Every index below count lies in the group of its remainder. */
  lemma PartitionHome(count: int, n: int)
    requires n >= 1
    ensures forall x :: 0 <= x < count ==> x % n < |Partition(count, n)| && x in Partition(count, n)[x % n]
  {
    forall x | 0 <= x < count ensures x % n < |Partition(count, n)| && x in Partition(count, n)[x % n] {
      if count < n {
        assert x % n == x;
      }
    }
  }

  /**
   * The grouping covers [0, count) and nothing else: together with PartitionDisjoint, the
   * groups form a partition of the indices.
   */
  lemma PartitionCovers(count: int, n: int)
    requires n >= 1
    ensures forall x :: x in Flatten(Partition(count, n)) <==> 0 <= x < count
  {
    var groups := Partition(count, n);
    PartitionHome(count, n);
    forall x ensures x in Flatten(groups) <==> 0 <= x < count {
      FlattenMembership(groups, x);
    }
  }

  /** The order in which the slot indices are generated: the groups one after another. */
  function GenerationOrder(count: int, procs: int): (order: seq<int>)
    ensures forall x :: x in order <==> 0 <= x < count
  {
    PartitionCovers(count, NumThreads(count, procs));
    Flatten(Partition(count, NumThreads(count, procs)))
  }

  /** The generation order repeats no index. */
  lemma GenerationOrderDistinct(count: int, procs: int)
    ensures Distinct(GenerationOrder(count, procs))
  {
    var n := NumThreads(count, procs);
    PartitionDisjoint(count, n);
    FlattenDistinct(Partition(count, n));
  }

  /** Every index in [0, count) is generated exactly once, and no other index is. */
  lemma GenerationOrderIsPermutation(count: int, procs: int)
    ensures Distinct(GenerationOrder(count, procs))
    ensures multiset(GenerationOrder(count, procs)) == multiset(Range(count))
    ensures |GenerationOrder(count, procs)| == Max(0, count)
  {
    var n := NumThreads(count, procs);
    var order := Flatten(Partition(count, n));
    GenerationOrderDistinct(count, procs);
    PartitionCovers(count, n);
    RangeMembers(count);
    forall i | 0 <= i < |order| ensures order[i] in Range(count) {
      assert order[i] in order;
      assert 0 <= order[i] < count;
    }
    SameElementsPermutation(order, Range(count));
  }

  /** The random and Faker-supplied values drawn for one slot; their content is arbitrary. */
  datatype Draw = Draw(
    profile: Profile,
    username: string,
    email: string,
    password: string,
    roleCoin: bool,
    genderCoin: bool)

  /** One generated user: ROLE or ADMIN and MALE or FEMALE by coin flip, never USER. */
  function Synthesize(d: Draw): (u: GeneratedUser)
    ensures u.role == (if d.roleCoin then ROLE else ADMIN)
    ensures u.role != USER
    ensures u.gender == (if d.genderCoin then MALE else FEMALE)
    ensures u.profile == d.profile && u.username == d.username && u.email == d.email && u.password == d.password
  {
    GeneratedUser(d.profile, d.username, d.email, d.password,
                  if d.roleCoin then ROLE else ADMIN,
                  if d.genderCoin then MALE else FEMALE)
  }

  /** One generated record per index of the batch, in the batch's order. */
  function GenerateBatch(batch: seq<int>, draw: int -> Draw): (users: seq<GeneratedUser>)
    ensures |users| == |batch|
    ensures forall j :: 0 <= j < |batch| ==> users[j] == Synthesize(draw(batch[j]))
  {
    seq(|batch|, j requires 0 <= j < |batch| => Synthesize(draw(batch[j])))
  }

  /** The results of the groups, concatenated: the same as generating the concatenated groups. */
  function GenerateAll(groups: seq<seq<int>>, draw: int -> Draw): (users: seq<GeneratedUser>)
    ensures users == GenerateBatch(Flatten(groups), draw)
  {
    if groups == [] then []
    else
      var head := GenerateBatch(groups[0], draw);
      var rest := GenerateAll(groups[1..], draw);
      assert head + rest == GenerateBatch(groups[0] + Flatten(groups[1..]), draw);
      head + rest
  }

  /**
   * The generated users for a request of `count`, with `procs` available processors
   * and `draw(i)` the values drawn for slot i: exactly one record per slot of
   * [0, count), in the order of GenerationOrder (which callers may not rely on).
   */
  function GenerateUsers(count: int, procs: int, draw: int -> Draw): (users: seq<GeneratedUser>)
    ensures |users| == Max(0, count)
    ensures |users| == |GenerationOrder(count, procs)|
    ensures forall j :: 0 <= j < |users| ==> users[j] == Synthesize(draw(GenerationOrder(count, procs)[j]))
    ensures forall u :: u in users ==> u.role != USER
  {
    GenerationOrderIsPermutation(count, procs);
    GenerateAll(Partition(count, NumThreads(count, procs)), draw)
  }

  /** Each requested slot contributes exactly one record to the generated list. */
  lemma EachSlotGeneratedOnce(count: int, procs: int, draw: int -> Draw, i: int)
    requires 0 <= i < count
    ensures exists j :: 0 <= j < |GenerateUsers(count, procs, draw)| && GenerationOrder(count, procs)[j] == i
    ensures forall j, j' :: 0 <= j < j' < |GenerationOrder(count, procs)| ==> GenerationOrder(count, procs)[j] != GenerationOrder(count, procs)[j']
  {
    GenerationOrderIsPermutation(count, procs);
    var order := GenerationOrder(count, procs);
    assert i in multiset(Range(count)) by { assert Range(count)[i] == i; }
    assert i in order;
  }
}
