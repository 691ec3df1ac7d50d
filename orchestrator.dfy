/**
 Role dispatch in `main` of psdd.c: the fork loops decide which policy each
 child runs, and the reap loop decides how many children are waited for.
 Forking, signals and waiting themselves are not modelled; a child is its
 role.
 */
module Orchestrator {

  datatype Role = Dad | Mom | Student

  /** A C `for (i = 0; i < n; i++)` loop runs this many times. */
  function Max0(n: int): nat
  {
    if n < 0 then 0 else n
  }

  /** The policy of the parent forked at index `i`. */
  function ParentRole(i: int): Role
  {
    if i == 0 then Dad else Mom
  }

  /** The roles of all children, in fork order: the parents, then the students. */
  function Roles(numParents: int, numStudents: int): seq<Role>
  {
    seq(Max0(numParents), k => ParentRole(k)) + seq(Max0(numStudents), _ => Student)
  }

  /** The first parent runs Dad's policy and every later parent Mom's;
      every student index runs the student's. So there is exactly one Dad
      when at least one parent is requested, and none otherwise. */
  lemma RoleDispatch(numParents: int, numStudents: int)
    ensures |Roles(numParents, numStudents)| == Max0(numParents) + Max0(numStudents)
    ensures forall k :: 0 <= k < |Roles(numParents, numStudents)| ==>
      (Roles(numParents, numStudents)[k] == Dad <==> k == 0 && numParents > 0)
    ensures forall k :: 0 < k < Max0(numParents) ==> Roles(numParents, numStudents)[k] == Mom
    ensures forall k :: Max0(numParents) <= k < |Roles(numParents, numStudents)| ==>
      Roles(numParents, numStudents)[k] == Student
  {
  }

  /** The two fork loops of `main`, recording the role each child runs. */
  method SpawnRoles(numParents: int, numStudents: int) returns (roles: seq<Role>)
    ensures roles == Roles(numParents, numStudents)
  {
    roles := [];
    var i := 0;
    while i < numParents
      invariant 0 <= i <= Max0(numParents)
      invariant roles == seq(i, k => ParentRole(k))
    {
      if i == 0 {
        roles := roles + [Dad];
      } else {
        roles := roles + [Mom];
      }
      i := i + 1;
    }
    ghost var parents := roles;
    i := 0;
    while i < numStudents
      invariant 0 <= i <= Max0(numStudents)
      invariant roles == parents + seq(i, _ => Student)
    {
      roles := roles + [Student];
      i := i + 1;
    }
  }

  /** How many times `main` calls `wait`, as written: once per iteration of
      a loop bounded by `num_parents + num_students`, a sum taken here over
      unbounded integers. It never waits for more
      children than were forked, and waits for all of them when neither
      count is negative. */
  function WaitCalls(numParents: int, numStudents: int): (n: nat)
    ensures n <= |Roles(numParents, numStudents)|
    ensures numParents >= 0 && numStudents >= 0 ==> n == |Roles(numParents, numStudents)|
  {
    Max0(numParents + numStudents)
  }

  /** With one negative count the reap loop stops early: `-1 2` forks two
      students but waits only once. `sem_destroy` then runs on a semaphore the
      unreaped student may still use, and `main` exits without reaping it. */
  lemma WaitCallsMissChild()
    ensures |Roles(-1, 2)| == 2 && WaitCalls(-1, 2) == 1
  {
  }

  /** The counts for which the reap loop as written waits for every child. */
  lemma WaitCallsReapAllIff(numParents: int, numStudents: int)
    ensures WaitCalls(numParents, numStudents) == |Roles(numParents, numStudents)|
      <==> !(numParents < 0 && numStudents > 0) && !(numStudents < 0 && numParents > 0)
  {
  }

  /** The reap count the code evidently intends: one `wait` per child forked. */
  function ReapCount(numParents: int, numStudents: int): (n: nat)
    ensures n == |Roles(numParents, numStudents)|
    ensures n >= WaitCalls(numParents, numStudents)
  {
    Max0(numParents) + Max0(numStudents)
  }
}
