# Go testing-framework examples, modelled in Dafny

The repository is a catalogue of small Go examples, one per testing library.
Each example carries a little "production" code: integer calculators
(sum, multiply, subtract, divide with a division-by-zero policy, absolute
value, slice sum), a user service that passes calls through to a
`UserRepository` interface, the scenario state that BDD step definitions
mutate, and the small stateful objects and sequence helpers that the
property-based examples exercise. This project models that code, one Dafny
module per example package, and proves what the examples' tests assert —
for every input rather than for sampled ones.

- `GoBase` (go_base.dfy): Go's nil-able values (`Option`), `error` values
  (`Error`, seen through their message), `(T, error)` results (`Returns`),
  nil-dereference panics (`Outcome`), and the trace of calls a service makes
  (`Traced`). Go's integer `/` rounds toward zero, unlike Dafny's Euclidean
  `/`, so it is defined separately as `Quot` and characterised by
  `IsTruncatedQuotient`. `Calculated` is a reference calculator used by the
  BDD step models, and `Decimal` renders `%d`.
- `Seqs` (seqs.dfy): the reference reversal of a sequence.
- `BuiltinCalc`, `Testify`, `Ginkgo`, `Goconvey`, `Gopter`: the arithmetic
  helpers of each package. There are two division policies. `BuiltinCalc.Divide`
  returns 0 silently for a zero divisor. Every other `Divide` returns 0 together
  with an error, and the error messages differ: "division by zero" in testify
  and goconvey, "cannot divide by zero" in ginkgo, godog and gauge.
- `Testify`, `Gomock`: the user services. A repository is a record of total
  functions, giving the reply to each argument. A service call returns the
  calls it made on the repository together with its outcome. Pointers
  (`*User`) are `Option<User>`, so a nil user that comes with a nil error
  leads to a nil-dereference outcome, as it would in Go.
- `Godog`: the calculator context of the godog steps. Each step is a
  function from one context to the next, and also returns the step's error.
- `Gauge`: the gauge steps as transitions on a record that holds the
  suite's globals. A step that panics returns its panic message instead.
- `Rapid`: the random push/pop stack loop, `Counter`, the key-value `Map`,
  the counter and map tests checked against their models, `reverseString`
  on rune sequences, `isSorted`, and the sorted-slice generator. The random
  draws are the inputs.

Integers are mathematical integers. Go's 64-bit `int` wraps around, and where
that would break a stated property the property is listed under "Left out".

## Model

| member | source | states |
|---|---|---|
| GoBase.Quot | 01_builtin_testing/calc/sum.go:20 | Go's `a / b` for b ≠ 0: the remainder is smaller than the divisor in magnitude and never has the opposite sign to the dividend, so the quotient rounds toward zero |
| GoBase.QuotUnique | 01_builtin_testing/calc/sum.go:20 | only one integer satisfies the truncated-quotient law, so the law fully determines Go's `/` |
| GoBase.QuotRoundsTowardZero | 04_goconvey/sum_test.go:118-128 | 7/2 = 3, -6/2 = -3, 6/2 = 3, and -7/2 = -3, which differs from the Euclidean -4 |
| BuiltinCalc.Divide | 01_builtin_testing/calc/sum.go:16-21 | a zero divisor yields 0 and signals nothing; any other divisor yields the truncated quotient |
| BuiltinCalc.DivideIsGoQuotient | 01_builtin_testing/calc/sum.go:16-21 | for a non-zero divisor, every integer that obeys the truncation law equals Divide's answer, so Divide is determined by Go's `/` |
| BuiltinCalc.SumTableCases | 01_builtin_testing/calc_test.go:28-32 | the table cases of Sum hold, including 0 as an identity |
| BuiltinCalc.DivideTableCases | 01_builtin_testing/calc_test.go:76-78 | Divide(6,2) = 3, Divide(5,0) = 0 and Divide(-6,2) = -3 |
| BuiltinCalc.Identities | 01_builtin_testing/calc/sum.go:5-12 | 0 is an identity of Sum; 1 is an identity of Multiply and 0 absorbs |
| Testify.SumMultiplyCases | 02_testify/sum_test.go:38-59 | Sum and Multiply give the exact results the tests expect (2+3 = 5, -1+-2 = -3, 3×4 = 12, …) |
| Testify.Divide | 02_testify/sum.go:15-20 | error present iff the divisor is 0; then the value is 0 and the message is "division by zero"; otherwise the value is the truncated quotient |
| Testify.DivideCases | 02_testify/sum_test.go:64-89 | 6/2 and 10/2 succeed with 3 and 5; 5/0 returns 0 with ErrDivisionByZero |
| Testify.GetUserName | 02_testify/sum.go:55-61 | exactly one GetUser call, with the same id; a repository error comes back unchanged with ""; a fetched user's Name comes back with no error; a nil user with a nil error is dereferenced |
| Testify.GetUserNameScenarios | 02_testify/sum_test.go:141-178 | with a repository that knows user 1 as "John Doe", id 1 gives "John Doe" and id 999 gives "" plus the "user not found" error |
| Ginkgo.ArithmeticLaws | 03_ginkgo_gomega/calculator.go:12-24 | Add is commutative, Subtract undoes Add, and Multiply distributes over Add |
| Ginkgo.Divide | 03_ginkgo_gomega/calculator.go:28-36 | error present iff the divisor is 0; then the value is 0 and the message is "cannot divide by zero"; otherwise the value is the truncated quotient |
| Ginkgo.IsPositive | 03_ginkgo_gomega/calculator.go:46-48 | the result is true exactly when n ≥ 1 |
| Ginkgo.IsPositiveBoundary | 03_ginkgo_gomega/calculator.go:46-48 | IsPositive(n) holds iff n ≥ 1, so zero is not positive |
| Ginkgo.TotalAppend | 03_ginkgo_gomega/calculator.go:52-56 | adding one more element to a slice adds that element to its sum |
| Ginkgo.TotalConcat | 03_ginkgo_gomega/calculator.go:51-57 | the sum of a concatenation is the sum of the sums of its parts |
| Ginkgo.Sum | 03_ginkgo_gomega/calculator.go:51-57 | the range loop returns the reference sum of all elements, and 0 for an empty slice |
| Goconvey.Divide | 04_goconvey/sum_test.go:20-34 | error present iff the divisor is 0; then the value is 0 and the errDivisionByZero message is "division by zero"; otherwise the value is the truncated quotient |
| Goconvey.DivideScenarios | 04_goconvey/sum_test.go:111-137 | 6/2 = 3, -6/2 = -3 and 7/2 = 3 with no error; 5/0 returns 0 with ErrDivisionByZero |
| Goconvey.MultiplyLaws | 04_goconvey/sum_test.go:82-102 | Multiply is commutative, 1 is its identity and 0 absorbs on either side |
| Gomock.GetUserName | 05_gomock/db.go:38-44 | exactly one GetUser call, with the same id; ("", err) whenever GetUser fails; (user.Name, nil) when it succeeds; a nil user with a nil error is dereferenced |
| Gomock.CreateUser | 05_gomock/db.go:47-53 | exactly one SaveUser call, on a User with the given Name and Email and ID 0; SaveUser's error is returned |
| Gomock.RemoveUser | 05_gomock/db.go:56-58 | exactly one DeleteUser call, with the same id; its error is returned unchanged |
| Gomock.GetAllUserNames | 05_gomock/db.go:61-72 | exactly one ListUsers call; on failure a nil slice and the same error; otherwise as many names as users, names[i] = users[i].Name in order; a nil user in the list is dereferenced |
| Godog.Divide | 06_godog/calculator_test.go:34-39 | error present iff the divisor is 0; then 0 with "cannot divide by zero"; otherwise the truncated quotient |
| Godog.ACalculator | 06_godog/calculator_test.go:43-49 | whatever the context held before, numbers are empty, result is 0 and err is nil, and the step succeeds |
| Godog.IHaveEnteredIntoTheCalculator | 06_godog/calculator_test.go:51-54 | the number is appended to numbers; result and err are unchanged; the step succeeds |
| Godog.IPressAdd | 06_godog/calculator_test.go:56-62 | fewer than 2 numbers: "need at least 2 numbers" and nothing changes; otherwise result is numbers[0] + numbers[1] and nothing else changes |
| Godog.IPressSubtract | 06_godog/calculator_test.go:64-70 | as IPressAdd, with numbers[0] − numbers[1] |
| Godog.IPressMultiply | 06_godog/calculator_test.go:72-78 | as IPressAdd, with numbers[0] × numbers[1] |
| Godog.IPressDivide | 06_godog/calculator_test.go:80-86 | fewer than 2 numbers fails; dividing by zero stores result 0 and err "cannot divide by zero" yet the step succeeds; a good division stores the truncated quotient and clears err |
| Godog.IPressOperation | 06_godog/calculator_test.go:88-101 | "add", "subtract", "multiply" and "divide" behave exactly as the matching press step on any context; any other name fails with "unknown operation: " + name and leaves the context as it was |
| Godog.TheResultShouldBeOnTheScreen | 06_godog/calculator_test.go:103-108 | succeeds iff result equals the expected value; otherwise the message reads "expected E, got R" |
| Godog.IShouldSeeAnErrorMessage | 06_godog/calculator_test.go:110-118 | succeeds iff err is non-nil and its message is the expected text; a nil err gives the "but got no error" message |
| Godog.EnterAllAppends | 06_godog/calculator_test.go:51-54 | entering a run of numbers appends them in order and leaves result and err alone |
| Godog.Scenario | 06_godog/calculator_test.go:43-101 | a new calculator, at least two numbers entered, then a known operation: every step succeeds, and the result is the reference answer on the first two numbers |
| Godog.TooFewNumbers | 06_godog/calculator_test.go:56-86 | with fewer than 2 numbers every known operation fails with "need at least 2 numbers" and changes nothing |
| Godog.LaterEntriesIgnored | 06_godog/calculator_test.go:60 | numbers entered after the first two do not change the result, err or step error of any operation |
| Godog.AddScenario | 06_godog/calculator_test.go:43-108 | entering 50 and 70 and pressing add passes the check for 120 |
| Gauge.Divide | 07_gauge/steps/calculator_steps.go:113-118 | error present iff the divisor is 0; then 0 with "cannot divide by zero"; otherwise the truncated quotient |
| Gauge.Initialize | 07_gauge/steps/calculator_steps.go:14-19 | Numbers becomes empty, Result 0 and Error "" |
| Gauge.Enter | 07_gauge/steps/calculator_steps.go:21-23 | the number is appended to Numbers; Result and Error are unchanged |
| Gauge.Press | 07_gauge/steps/calculator_steps.go:25-50 | Numbers never changes; fewer than 2 numbers sets Error "need at least 2 numbers"; an unknown operation sets Error "unknown operation: " + name; dividing by zero sets Error "cannot divide by zero"; in each of these Result stays as it was; a known operation that succeeds sets Result to the reference answer on the first two numbers and leaves Error alone |
| Gauge.ResultShouldBe | 07_gauge/steps/calculator_steps.go:52-57 | panics iff Result differs from the expected value, with the message "Expected E but got R" |
| Gauge.ShouldSeeError | 07_gauge/steps/calculator_steps.go:59-63 | panics iff Error differs from the expected message |
| Gauge.PerformCalculation | 07_gauge/steps/calculator_steps.go:65-90 | Error is never touched; no rows leaves the globals as they were; a panic happens at some row whose numbers are left in Numbers and whose expected cell differs from Result; on completion the globals hold the last row's numbers and its expected value as Result |
| Gauge.RowResultIsCalculated | 07_gauge/steps/calculator_steps.go:74-83 | for a known operation, one table row's Result is the reference answer on that row's two cells |
| Gauge.PerformCalculationChecksEveryRow | 07_gauge/steps/calculator_steps.go:65-90 | when every operation is known, the table step completes iff every row's expected cell is right; Error is never touched; on completion the globals hold the last row's numbers and result |
| Gauge.PanicAtFirstFailingRow | 07_gauge/steps/calculator_steps.go:66-88 | with known operations, a panic happens at the first row that does not hold: every earlier row holds, and Numbers and Result are that row's numbers and its computed answer, with Error untouched |
| Gauge.PanicEndsTable | 07_gauge/steps/calculator_steps.go:66-88 | once the step panics on some rows, appending further rows changes nothing: rows after the panic never run |
| Gauge.UnknownRowCarries | 07_gauge/steps/calculator_steps.go:74-88 | a row with an unknown operation keeps the previous Result, so the table completes past it only if that Result equals the row's expected cell |
| Gauge.ErrorOutlivesSuccess | 07_gauge/steps/calculator_steps.go:25-50 | a successful press does not clear an Error that an earlier step recorded |
| Gopter.Abs | 08_gopter/properties_test.go:22-27 | the result is never negative and is either x or −x |
| Gopter.SumLaws | 08_gopter/properties_test.go:46-68 | Sum is commutative and associative, with 0 as identity |
| Gopter.SumIncreases | 08_gopter/properties_test.go:71-81 | Sum(a, b) > a whenever b > 0 |
| Gopter.MultiplyLaws | 08_gopter/properties_test.go:92-123 | Multiply is commutative and associative, with 1 as identity and 0 as annihilator |
| Gopter.MultiplyDistributes | 08_gopter/properties_test.go:126-133 | Multiply distributes over Sum |
| Gopter.AbsLaws | 08_gopter/properties_test.go:143-178 | Abs(x) ≥ 0, Abs(x) = x for x ≥ 0, Abs(x) = −x for x < 0, and Abs is idempotent |
| Gopter.Reverse | 08_gopter/properties_test.go:30-36 | the result has the same length and holds s[i] at index len(s)−1−i; it is the reference reversal |
| Gopter.ReverseProperties | 08_gopter/properties_test.go:188-237 | reversing twice returns the original, the length is preserved, and the first and last elements trade places |
| Seqs.Reversed | 08_gopter/properties_test.go:30-36 | the reference reversal has the same length and holds s[len(s)−1−i] at index i |
| Seqs.ReversedInvolution | 09_rapid/model_test.go:236-245 | reversing twice gives back the original sequence |
| Seqs.ReversedSwapsEnds | 08_gopter/properties_test.go:216-237 | the first element becomes the last and the last the first |
| Rapid.StackStep | 09_rapid/model_test.go:33-40 | push appends the value; pop on an empty stack leaves it empty; otherwise pop removes exactly the last element |
| Rapid.PopUndoesPush | 09_rapid/model_test.go:33-40 | a pop right after a push gives back the stack from before the push |
| Rapid.PushedAppend | 09_rapid/model_test.go:30-42 | one more operation adds its value to the pushed values only if it is a push |
| Rapid.RunStack | 09_rapid/model_test.go:30-42 | the loop yields the stack obtained by applying StackStep to each operation in turn; that stack holds only pushed values, counted with multiplicity; it is never longer than the number of pushes; with pushes drawn from 0..100 it holds only values in 0..100 |
| Rapid.Increment | 09_rapid/model_test.go:52-54 | the count goes up by one |
| Rapid.Decrement | 09_rapid/model_test.go:56-58 | the count goes down by one |
| Rapid.Reset | 09_rapid/model_test.go:60-62 | the count is 0 afterwards, whatever it was |
| Rapid.Value | 09_rapid/model_test.go:64-66 | reports the current count |
| Rapid.CounterMethods | 09_rapid/model_test.go:52-66 | Increment adds 1, Decrement subtracts 1, Reset gives 0, Value reports the count, and Decrement undoes Increment |
| Rapid.SinceLastReset | 09_rapid/model_test.go:75-94 | the operations after the last reset: a suffix containing no reset, preceded by a reset whenever it is not the whole run |
| Rapid.RunCounterClosedForm | 09_rapid/model_test.go:75-94 | after any run of operations the value is the increments minus the decrements since the last reset, on top of the starting value if no reset occurred |
| Rapid.CounterTest | 09_rapid/model_test.go:69-97 | the counter test never finds the Counter's value different from its expected-value model |
| Rapid.NewMap | 09_rapid/model_test.go:104-106 | a new map is empty |
| Rapid.Get | 09_rapid/model_test.go:112-115 | reports presence iff the key is in the map, with its value; an absent key reads as Go's zero value 0 |
| Rapid.Set | 09_rapid/model_test.go:108-110 | Get(k) after Set(k, v) is (v, true), and Get of every other key is unchanged |
| Rapid.Delete | 09_rapid/model_test.go:117-119 | Get(k) after Delete(k) reports absence; every other key is unchanged; deleting an absent key changes nothing |
| Rapid.Size | 09_rapid/model_test.go:121-123 | the number of keys present in the map |
| Rapid.SizeChanges | 09_rapid/model_test.go:108-123 | Set grows Size by one iff the key is new; Delete shrinks it by one iff the key was present |
| Rapid.MapTest | 09_rapid/model_test.go:126-168 | the map test never finds a Get or Size that disagrees with the model map |
| Rapid.ReverseString | 09_rapid/model_test.go:228-234 | swapping runes from both ends inward yields the reversed rune sequence, of the same length |
| Rapid.AdjacentOrderedIsOrdered | 09_rapid/model_test.go:256-263 | every adjacent pair being in order is the same as every pair being in order |
| Rapid.AdjacentChain | 09_rapid/model_test.go:256-263 | in an adjacent-ordered slice any earlier element is ≤ any later one |
| Rapid.IsSorted | 09_rapid/model_test.go:256-263 | returns true iff no element is greater than the one after it |
| Rapid.GenerateSorted | 09_rapid/model_test.go:267-278 | the generator's slice has the drawn size, starts at the drawn first value, steps by the drawn increments, and is sorted when the increments are non-negative |

## Left out

- The expectation engines of gomock and testify/mock (`EXPECT`, `Times`, `InOrder`, `On`, `AssertExpectations`) and the generated `mock_db.go` live in libraries that are not part of this model. Only the service over an abstract repository is modelled, and a mock's replies are the repository's functions.
- Test-framework plumbing (Ginkgo `Describe`/`It`, GoConvey `Convey`, godog `InitializeScenario`/`TestFeatures`/`TestMain`, `gauge.Step` registration, `t.Run`, `t.Parallel`) is not modelled. Only the bodies of the functions and steps are.
- The rapid and gopter generators, their shrinking, and the fixed iteration counts (50, 30, 100) are randomness owned by those libraries. The draws become inputs, and the properties are proved for every input.
- `parseInt` (07_gauge/steps/calculator_steps.go:92-96) wraps `fmt.Sscanf`; the table step takes its cells as integers that have already been parsed.
- `gauge.WriteMessage` is output. A panic is modelled as its message, and the gauge table step's state after a panic is the state at that row.
- 10_testcontainers_go and 11_httpexpect drive Docker, Redis and HTTP servers; they are external systems and are not part of this model.
- Go's 64-bit wrap-around is not modelled: integers are unbounded, so no sum, product or quotient overflows.
- GoBase.Quot: in Go, `math.MinInt / -1` wraps to `math.MinInt`; the unbounded quotient does not model this. The same applies to every Divide.
- Gopter.AbsLaws: `Abs(x) >= 0` fails in Go for `math.MinInt`, whose negation wraps to itself.
- Gopter.SumIncreases: fails in Go when `a + b` overflows.
- Rapid.ReverseString works on rune sequences. Go's `[]rune(s)` turns invalid UTF-8 into U+FFFD, so byte length is not preserved for such strings, and it is not claimed.
- Error identity: errors are compared by message. In Go, testify's `Error("division by zero")` and goconvey's `errDivisionByZero{}` are different types, and `fmt.Errorf` makes a new value on every call. Within one package only the message can be observed, so the model does not distinguish them.
- A Go nil slice and an empty slice are both the empty sequence, except for GetAllUserNames's result: there, nil is `None`, kept apart from an empty list of names.
- The empty `Calculator` structs hold no state. Their methods are plain functions.
- Gauge.Press: the gauge steps call `testsuit.Calc`, whose type `testsuit.Calculator` is not part of this model. The model assumes it behaves like the local `Calculator` of 07_gauge/steps/calculator_steps.go:98-118: exact add, subtract and multiply, truncating division, and "cannot divide by zero" for a zero divisor. Gauge.PerformCalculation and Gauge.RowResultIsCalculated rest on the same assumption.
- The string-concatenation and append properties of TestStringProperties, TestStringOperations and TestSliceOperations test Go's built-in operators, not code of this repository.
