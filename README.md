# Shared bank account: Dad, Mom and the Poor Student

A model of the balance logic of `psdd.c`, an operating-systems exercise in
which forked processes share one `bank_account` integer in a memory-mapped
file and guard it with one semaphore `mutex`. Dear Old Dad and Lovable Mom
deposit, the Poor Student withdraws, each at random moments. Every actor
reads the balance, decides and writes it back between one `sem_wait` and its
`sem_post`. So each turn is atomic, and any run of the system is a finite
sequence of turns applied to one balance that starts at 0.

- `Draws` (`draws.dfy`): `get_random(min, max)`. The value of `rand()` is a
  parameter.
- `Policy` (`policy.dfy`): what each actor reports and deposits or withdraws
  on one turn, as pure functions of the balance it read and its raw draws.
- `Ledger` (`ledger.dfy`): the `Account` class whose `balance` field is
  `shared->bank_account`. It has one step method per actor's critical section,
  written as the C code is written: copy into a local, branch, write back. A
  `Run` method applies the critical sections in the order the lock granted
  them. Beside the class sit the run's specification (`Final`, `Trace`) and the
  lemmas that any interleaving keeps the balance in [0, 225] and loses no
  update.
- `Orchestrator` (`orchestrator.dfy`): which policy each forked child runs
  (parent index 0 is Dad, later parents are Mom, students are students), and
  how many children `main` waits for.

The code does not reject negative actor counts. `atoi` can return one, and a
negative count makes its fork loop run zero times. The model follows the code,
and the consequence for the reap loop is recorded under Findings.

## Model

| member | source | states |
|---|---|---|
| `Draws.GetRandom` | psdd.c:248-250 | for a raw draw r >= 0 and a range with max >= min, the value lies in [min, max]; for any non-zero divisor it lies in [min, min + abs(max - min + 1)) |
| `Draws.GetRandomCovers` | psdd.c:248-250 | every value of [min, max] is produced by some raw draw |
| `Draws.PercentParity` | psdd.c:154-163 | a decision drawn in [0, 99] is even exactly when the raw draw is even |
| `Policy.DadPolicy` | psdd.c:154-176 | Dad deposits iff the decision is even, the balance is below 100 and the second draw is even; the deposit is the amount draw, in [0, 100]; the other three outcomes (no money, enough cash, check only) each hold under exactly their branch conditions and change nothing; never a deposit at 100 or above |
| `Policy.MomPolicy` | psdd.c:197-205 | Mom deposits iff the balance is at most 100, always an amount in [50, 125]; above 100 she reports the balance sufficient and changes nothing |
| `Policy.StudentPolicy` | psdd.c:224-242 | the student withdraws iff the decision is even and the need in [0, 50] is at most the balance, and then exactly the need; an unmet need exceeds the balance and changes nothing; an odd decision only checks; a non-negative balance never goes negative |
| `Policy.DadDepositsAnyAmount` | psdd.c:162-165 | below 100 every amount in [0, 100] is a possible deposit by Dad |
| `Policy.MomDepositsAnyAmount` | psdd.c:197-201 | at or below 100 every amount in [50, 125] is a possible deposit by Mom |
| `Ledger.StepKeepsBounds` | psdd.c:156-244 | one turn of any actor from a balance in [0, 225] leaves it in [0, 225] |
| `Ledger.RunKeepsBounds` | psdd.c:75-244 | any finite interleaving of Dad, Mom and student turns that starts in [0, 225], in particular from the initial 0, ends in [0, 225] |
| `Ledger.NoLostUpdate` | psdd.c:156-244 | one event per turn, and the final balance equals the initial balance plus the sum of every turn's change in the order the turns ran |
| `Ledger.MaxBalanceReached` | psdd.c:160-201 | the bound is tight: from 0, Dad depositing 100 and then Mom depositing 125 reaches 225 |
| `Ledger.DadStudentScenario` | psdd.c:154-242 | from 0: Dad gives 40, a need of 50 is refused, Dad gives 70, a need of 30 is paid; the balance ends at 80 |
| `Ledger.Account.constructor` | psdd.c:75 | the account starts at 0, within the bounds |
| `Ledger.Account.DadStep` | psdd.c:154-178 | Dad's critical section reports `DadPolicy` of the balance it read and writes back that balance plus the event's change, nothing else |
| `Ledger.Account.MomStep` | psdd.c:194-207 | Mom's critical section reports `MomPolicy` of the balance it read and writes back that balance plus the event's change |
| `Ledger.Account.StudentStep` | psdd.c:226-244 | the student's critical section reports `StudentPolicy` of the balance it read and writes back that balance plus the event's change |
| `Ledger.Account.Turn` | psdd.c:156-244 | whichever actor holds the lock takes its own policy's turn on the balance it read |
| `Ledger.Account.Run` | psdd.c:147-244 | running the critical sections in lock order leaves the balance `Final` of the start and reports `Trace` of it, with the balance in [0, 225] after every prefix of the turns, the last one included |
| `Orchestrator.RoleDispatch` | psdd.c:88-115 | the children are the parents then the students; a child runs Dad's policy iff it is parent index 0 and a parent was requested; every later parent runs Mom's; every student index runs the student's |
| `Orchestrator.SpawnRoles` | psdd.c:88-115 | the two fork loops produce exactly the role list `Roles`, also for negative counts (no child) |
| `Orchestrator.WaitCalls` | psdd.c:128-130 | as written, with the sum `num_parents + num_students` taken over unbounded integers, `main` never waits more often than it forked, and waits once per child when both counts are non-negative |
| `Orchestrator.WaitCallsMissChild` | psdd.c:88-130 | with counts -1 and 2, two children are forked but `wait` is called once |
| `Orchestrator.WaitCallsReapAllIff` | psdd.c:128-130 | the reap loop as written waits for every child iff it is not the case that one count is negative and the other positive |
| `Orchestrator.ReapCount` | psdd.c:128-130 | the intended reap count: one `wait` per forked child, never fewer than the loop as written |

## Left out

- Forking, `kill(0, SIGTERM)`, the `wait` calls themselves (only their count is modelled, in `Orchestrator`) and the `keep_running` loops: the concurrency is modelled only as an arbitrary sequence of atomic turns (`Ledger.Account.Run` over any `seq<Step>`), which covers every interleaving of any number of Dad, Mom and student processes.
- The semaphores (`sem_init`, `sem_wait`, `sem_post`, `sem_destroy`): the mutex is modelled as the atomicity of one step method. The `dad_deposit` and `student_withdraw` semaphores are declared and never used.
- The file-backed shared memory (`open`, `ftruncate`, `mmap`, `munmap`, `remove`) and its error exits: I/O.
- The signal handler: asynchronous signals are not modelled.
- `sleep`, `srand(time(NULL) ^ getpid())` and `rand()`: each draw is a raw non-negative parameter. The upper bound `RAND_MAX` on those draws is not modelled, so the model admits a superset of the draws the C library can produce. The sleep draws do not affect the balance and are not taken.
- `printf` and `atoi`: the status line of each turn is its `Policy.Event`; argument parsing is replaced by the integer counts given to `Orchestrator`.
- C `int` overflow of the balance: `Ledger.RunKeepsBounds` keeps every balance in [0, 225], so unbounded integers do not change the balance's behaviour.
- Orchestrator.WaitCalls: the sum `num_parents + num_students` at psdd.c:128 is taken over unbounded integers, so C's overflow for counts whose sum leaves `int` (for instance `atoi` giving INT_MIN and -1, which C leaves undefined and which commonly wraps to a huge bound) is not modelled; the contract holds only for counts whose sum fits in `int`.

## Findings

| source | as written | input that shows it | evidently intended | confidence | as-written member | corrected member |
|---|---|---|---|---|---|---|
| psdd.c:128-130 | `main` calls `wait` `num_parents + num_students` times, while the fork loops fork `max(0, num_parents) + max(0, num_students)` children | arguments `-1 2`: two students are forked and `wait` is called once; `sem_destroy` (psdd.c:133) then runs on a semaphore that the unreaped student may still `sem_wait`/`sem_post` on, which POSIX leaves undefined, and `main` exits without reaping that student | one `wait` per forked child (or rejecting negative counts before forking) | medium, not executed | `Orchestrator.WaitCallsMissChild` | `Orchestrator.ReapCount` |
