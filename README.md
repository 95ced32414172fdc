# copper, modelled in Dafny

copper is a finite-domain constraint solver. The user declares integer decision
variables, each with an interval domain `[min, max]`. They then build expressions
(scaling, addition, sums, linear combinations) and constraints (equality, `<=`, custom
propagators) on top of them. Search either finds one assignment satisfying every
constraint, or minimises or maximises an objective variable.

Search alternates two phases:

- **Propagation.** Every propagator narrows domains to the values that can still appear in
  a solution. Propagators whose variables changed are scheduled again, until a fixed point
  is reached or a domain becomes empty.
- **Branching.** Depth-first, on the first variable that is not yet set.

The repository holds two generations of this engine, and both are modelled:

- **The older engine** (`src/model/mod.rs`, `src/props.rs`, `src/search/…`) is the modules
  `LegacyVars`, `LegacyProps`, `LegacySearch`, `LegacyBranch`, `LegacyEngine` and
  `LegacyModel`.
  - Domains are passed by value.
  - Propagators are dispatched on a `PropId` enum.
  - Search runs on a LIFO stack of `(choice, space)` tasks.
- **The newer engine** (`src/model.rs`, `src/views.rs`, `src/props/…`, `src/search/agenda.rs`,
  `src/search/mode.rs`, `src/search/branch.rs`) is the modules `VarStore`, `Views`,
  `AddProp`, `SumProp`, `EqualsProp`, `LeqProp`, `Registry`, `Agendas`, `Spaces`,
  `Modes`, `Branching` and `ModelApi`.
  - Propagators work on views and mutate a shared context that logs events.
  - The agenda deduplicates entries.
  - The model drives search through a mode that bounds the objective.

Shared pieces:

- `Wrappers`: `Option` and `Result`.
- `Ints`: Rust's truncating `/` and `%`, `rem_euclid`, `div_floor` and `div_ceil`, and
  `next_multiple_of_tmp` of `src/utils.rs`.
- `Domains`: intervals, assignments inside domains, and the "narrows and logs honestly"
  relation.
- `Solutions`: `src/solution.rs`.

Across the model, soundness is stated about assignments:

- An assignment is a `seq<int>` with one value per variable.
- A propagator *keeps* every assignment inside the domains that satisfies its constraint.
- Once enough of its variables are set, success means every assignment left satisfies its
  constraint.
- Search returns a solution of the model inside the declared domains. It returns none only
  when no solution exists. In exhaustive mode, no solution has a smaller objective value
  than the one returned. This holds for search started from the corrected initial agenda,
  which also schedules the custom propagators (see "## Findings"). For a model without
  custom propagators, that agenda is the one the source builds.

Where a comment in the source and its code disagree, the model follows the code:

- `SetMinToMax` is documented as ascending, but `(min..=max).rev()` yields values from the
  maximum down.
- `SetMaxToMin` is documented as descending, but yields values from the minimum up.

`LegacyBranch.BranchOn` states the order the code produces.

## Model

| member | source | states |
|---|---|---|
| Solutions.From | src/solution.rs:31-35 | the solution holds exactly the given values, one per variable |
| Solutions.GetValues | src/solution.rs:10-14 | one value per requested id, each the solution's value at that id |
| Solutions.GetValuesIter | src/solution.rs:22-28 | one value per requested id, in the order given |
| Solutions.GetValuesArrayAgrees | src/solution.rs:16-20 | the array form returns the same values as the slice form |
| Solutions.GetValuesAppend | src/solution.rs:10-14 | looking up a concatenation of ids concatenates the looked-up values |
| Solutions.GetValuesAll | src/solution.rs:10-14 | looking up every id in order returns the whole assignment |
| Ints.TruncRem | src/utils.rs:18 | Rust's `%`: quotient times divisor plus remainder is the dividend, the remainder is smaller than the divisor in magnitude and carries the dividend's sign |
| Ints.RemEuclid | src/props.rs:75 | `rem_euclid` is the non-negative remainder below the divisor's magnitude |
| Ints.NextMultipleOf | src/utils.rs:12-31 | `rhs == -1` returns the input; for a positive `rhs` the result is a multiple of `rhs` at or above the input and less than `rhs` above it; for a negative `rhs` a multiple at or below the input and less than the magnitude of `rhs` below it |
| Ints.NextMultipleOfFixed | src/utils.rs:26-27 | a multiple of `rhs` is returned unchanged |
| Ints.MinusOneGuardIsOverflowOnly | src/utils.rs:13-16 | without the `rhs == -1` early return the arithmetic returns the input too, while `i32::MIN / -1` lies outside `i32`: the guard only avoids that overflow |
| Ints.CeilViaNextMultiple | src/props.rs:74 | `y.min.next_multiple_of_tmp(coef) / coef` is `ceil(y.min / coef)` for a positive `coef` |
| Ints.FloorViaRemEuclid | src/props.rs:75 | `(y.max - y.max.rem_euclid(coef)) / coef` is `floor(y.max / coef)` for a positive `coef` |
| Ints.CeilViaRemEuclidNeg | src/props.rs:94 | for a negative `coef`, `(y.max - y.max.rem_euclid(-coef)) / coef` is `ceil(y.max / coef)` |
| Ints.FloorViaNextMultipleNeg | src/props.rs:95 | for a negative `coef`, `y.min.next_multiple_of_tmp(-coef) / coef` is `floor(y.min / coef)` |
| Ints.CeilThreshold | src/props.rs:74 | `v * coef >= m` exactly when `v >= ceil(m / coef)` |
| Ints.FloorThreshold | src/props.rs:75 | `v * coef <= m` exactly when `v <= floor(m / coef)` |
| Ints.CeilThresholdNeg | src/props.rs:94 | the threshold form of the negative-coefficient lower bound |
| Ints.FloorThresholdNeg | src/props.rs:95 | the threshold form of the negative-coefficient upper bound |
| Domains.Intersect | src/vars.rs:1-6 | a value is in the clipped interval exactly when it is in the domain and within the bounds |
| Domains.IsSetMeansSingleton | src/vars.rs:1-6 | a set domain holds exactly its minimum; any other nonempty domain holds at least two values |
| Domains.Mid | src/search/branch.rs:7-8 | the midpoint of a domain with two or more values lies in `[min, max)` |
| Domains.NarrowsTrans | src/search/mod.rs:111-115 | two narrowing steps, each logging every changed variable, compose into one |
| Domains.NarrowsWidth | src/search/mod.rs:90-116 | a narrowing step never widens; a logged event means a strict drop in total width; no event means no change |
| LegacyVars.New | src/search/mod.rs:32 | the domains as declared, with an empty event log |
| LegacyVars.TrySetMin | src/search/mod.rs:74 | fails exactly when the new minimum exceeds the maximum; otherwise keeps exactly the values at or above it, logs the change, and leaves other variables alone |
| LegacyVars.TrySetMax | src/search/mod.rs:75 | fails exactly when the new maximum is below the minimum; otherwise keeps exactly the values at or below it, logs the change, and leaves other variables alone |
| LegacyVars.TrySetMinAndMax | src/props.rs:77 | fails exactly when the clipped interval would be empty (on a nonempty domain); otherwise the domain becomes that intersection |
| LegacyVars.TrySet | src/search/mod.rs:73 | fails exactly when the value is outside the domain; otherwise the domain becomes that single value |
| LegacyVars.TrySetMinAndMaxSound | src/props.rs:77 | an assignment whose value lies within the requested bounds survives |
| LegacyVars.SetPair | src/props.rs:77-80 | two chained `try_set_min_and_max?` calls keep every assignment within both pairs of bounds; on distinct nonempty domains they fail exactly when one intersection is empty |
| LegacyVars.SetTriple | src/props.rs:120-124 | the same for three chained calls |
| LegacyVars.DrainEvents | src/search/mod.rs:132 | hands out the event log and leaves it empty, with the domains unchanged |
| LegacyVars.GetAssignmentIfAllSet | src/search/mod.rs:119 | `Some` exactly when every domain is a singleton, and then the assignment lies in the domains |
| LegacyVars.AssignmentUnique | src/search/mod.rs:118-125 | with every domain set, the assignment returned is the only one inside the domains |
| LegacyProps.ScalePosX | src/props.rs:74-75 | `x` keeps exactly the values whose image `coef * x` lies in `y` |
| LegacyProps.PropScalePos | src/props.rs:70-82 | only narrows `x` and `y`; keeps every solution of `y == coef * x`; on distinct nonempty domains it fails exactly when a new domain is empty and otherwise yields exactly those domains; once `x` or `y` is set, every assignment left is a solution |
| LegacyProps.ScaleNegX | src/props.rs:94-95 | for a negative `coef`, `x` keeps exactly the values whose image lies in `y` |
| LegacyProps.PropScaleNeg | src/props.rs:90-102 | the same guarantees as `PropScalePos`, with a negative coefficient and the image bounds swapped |
| LegacyProps.PropPlus | src/props.rs:110-126 | only narrows `p`, `x` and `y`; keeps every solution of `p == x + y`; on distinct nonempty domains it fails exactly when one of the three new domains is empty and otherwise yields exactly them; once `x` and `y` are set, every assignment left is a solution |
| LegacyProps.PropSum | src/props.rs:135-159 | only narrows `s` and the terms; keeps every solution of `s == Σ xs`; with distinct variables and nonempty domains it fails exactly when the sum's new bound or some term's new bound is empty, and otherwise yields exactly those bounds; once every term is set, every assignment left is a solution |
| LegacyProps.PropEq | src/props.rs:166-178 | only narrows `x` and `y`; keeps every solution of `x == y`; on distinct nonempty domains it fails exactly when they do not overlap and otherwise sets both to their intersection; once either is set, every assignment left is a solution |
| LegacyProps.PropLeq | src/props.rs:186-192 | only lowers `x`'s maximum to `min(x.max, y.max)`; keeps every solution of `x <= y`; fails exactly when that bound is below `x.min`; once `y` is set, every assignment left is a solution |
| LegacySearch.RunProp | src/search/mod.rs:94-109 | the dispatch on the propagator id only narrows, keeps every assignment satisfying that propagator's constraint, and decides it once its subscribing variables are set |
| LegacySearch.DependentsMembers | src/search/mod.rs:131-137 | a propagator is scheduled exactly when it subscribes one of the changed variables |
| LegacySearch.DependentsLength | src/search/mod.rs:131-137 | the agenda grows by every subscription row in full, without deduplication |
| LegacySearch.ScheduleFromDomainChanges | src/search/mod.rs:130-137 | the event log is drained and the agenda extended by the subscription rows of the logged variables, in order |
| LegacySearch.PropagateStep | src/search/mod.rs:92-116 | one loop turn keeps the invariants (valid agenda, checked propagators outside it, every solution kept) and either shrinks a domain or shortens the agenda |
| LegacySearch.Propagate | src/search/mod.rs:90-128 | every solution inside the domains survives; with an empty agenda it ends `Done` exactly when every domain is set; if every propagator off the agenda was checked, `Done` yields a solution and `Fixed` a fully checked space |
| LegacySearch.InitialAgendaAsWritten | src/search/mod.rs:53-60 | one entry per declared built-in propagator, grouped by kind in the order written |
| LegacySearch.InitialAgendaAsWrittenMembers | src/search/mod.rs:53-60 | the agenda as written holds exactly the declared built-in propagators, each once, and never a custom one |
| LegacySearch.PropagateWithAllPropsAsWritten | src/search/mod.rs:49-63 | propagation from the agenda as written keeps every solution, but checks only the built-in propagators |
| LegacySearch.CustomIgnoredExample | src/search/mod.rs:49-63 | a well-formed model with a custom constraint `x != 1` on a variable set to 1 ends `Done` with `[1]`, which is not a solution |
| LegacySearch.InitialAgenda | src/search/mod.rs:53-60 | the corrected agenda: the built-in propagators followed by one entry per custom propagator |
| LegacySearch.InitialAgendaMembers | src/search/mod.rs:53-60 | the corrected agenda holds exactly the declared propagators, custom ones included |
| LegacySearch.InitialAgendaNoCustom | src/search/mod.rs:53-60 | the corrected agenda equals the agenda as written exactly when no custom propagator is declared |
| LegacySearch.PropagateWithAllProps | src/search/mod.rs:42-63 | with the corrected agenda, every solution survives, a `Done` assignment is a solution, and a `Fixed` space has every propagator checked |
| LegacySearch.Mutate | src/search/mod.rs:72-76 | the pivot keeps exactly the values the mutation allows; it fails only when none is left, and always fails then on a nonempty domain |
| LegacySearch.MutateAndBound | src/search/mod.rs:71-81 | after the mutation and the incumbent bound, only allowed pivot values and objective values strictly below the incumbent remain, and every assignment that fits both survives |
| LegacySearch.MutateThenPropagate | src/search/mod.rs:65-88 | exactly the solutions allowed by the choice and strictly better than the incumbent survive; a `Done` assignment is such a solution; setting an unset pivot strictly narrows the space |
| LegacyBranch.Ascending | src/search/branch/enumerate.rs:58-60 | `Set(v)` for every `v` in `lo..=hi`, strictly increasing |
| LegacyBranch.Descending | src/search/branch/enumerate.rs:31-33 | `Set(v)` for every `v` in `lo..=hi`, strictly decreasing |
| LegacyBranch.BranchOn | src/search/branch/enumerate.rs:24-72 | every value of the pivot's domain is set exactly once, only by `Set`; `SetMinToMax` yields them from the maximum down and `SetMaxToMin` from the minimum up |
| LegacyBranch.BranchOnDistinct | src/search/branch/enumerate.rs:24-72 | no value is yielded twice |
| LegacyBranch.BranchOnFirst | src/search/branch/enumerate.rs:31-33 | the first mutation of `SetMinToMax` sets the maximum; the first of `SetMaxToMin` sets the minimum |
| LegacyBranch.FromVarsPicker | src/search/branch/pick.rs:19-21 | the cursor starts at the first variable id |
| LegacyBranch.FirstUnsetFrom | src/search/branch/pick.rs:23-33 | the first variable at or after the cursor whose domain is not set; `None` exactly when all of them are set |
| LegacyBranch.Pick | src/search/branch/pick.rs:23-33 | the loop returns the first unset variable from the cursor on, skipping set variables for good and stopping on the pivot |
| LegacyBranch.PickAgain | src/search/branch/pick.rs:23-33 | picking again from where a successful pick stopped returns the same variable |
| LegacyBranch.PickSkipsOnlySet | src/search/branch/pick.rs:23-33 | with every variable before the cursor set, the pick from the cursor is the first unset variable overall |
| LegacyBranch.FromVars | src/search/branch/mod.rs:60-65 | a fresh picker and the chosen enumerator |
| LegacyBranch.Branch | src/search/branch/mod.rs:67-71 | `None` exactly when the picker finds no unset variable; otherwise the pivot it finds, with the enumerator's mutations on the pivot's current domain |
| LegacyBranch.Next | src/search/branch/mod.rs:88-92 | the next mutation paired with the pivot, `None` exactly when the mutations are exhausted |
| LegacyBranch.ChoicesArePivotMutations | src/search/branch/mod.rs:85-92 | the iterator yields one choice per mutation, in order, each carrying the pivot |
| LegacyEngine.Tasks | src/search/engine.rs:79-81 | one task per mutation, in order, all sharing the one space |
| LegacyEngine.BranchTasksOk | src/search/engine.rs:72-83 | the tasks queued for a fixed point are runnable, cover every assignment in its domains, and number at most its total width plus one |
| LegacyEngine.PotentialDrops | src/search/engine.rs:35-47 | replacing the top task by the tasks of a strictly narrower space lowers the stack's weight |
| LegacyEngine.CompleteStep | src/search/engine.rs:35-64 | replacing the top task keeps every pending better solution pending, given the replacement covers the task's |
| LegacyEngine.StepFailed | src/search/engine.rs:44-45 | a task whose propagation failed held no solution better than the incumbent |
| LegacyEngine.StepFixed | src/search/engine.rs:47 | the tasks of a fixed point are runnable, keep the search complete and weigh less than the task they replace |
| LegacyEngine.StepDone | src/search/engine.rs:48-61 | a reached assignment better than the incumbent becomes the incumbent and the search stays complete |
| LegacyEngine.Stack.constructor | src/search/engine.rs:25-30 | no incumbent and no task |
| LegacyEngine.Stack.PushTasks | src/search/engine.rs:72-83 | appends exactly the branch tasks of the space; the incumbent is untouched |
| LegacyEngine.Stack.PushChoices | src/search/engine.rs:79-81 | the loop appends one task per remaining mutation, in order |
| LegacyEngine.Stack.RunTask | src/search/engine.rs:35-64 | one loop turn keeps the loop invariant and lowers the potential, or returns (feasibility mode only) a solution inside the root domains |
| LegacyEngine.Stack.Seed | src/search/engine.rs:33 | the root's own tasks establish the loop invariant |
| LegacyEngine.Exhausted | src/search/engine.rs:67 | with the stack empty, the incumbent is the answer: none only if no solution exists, and in exhaustive mode no solution beats it |
| LegacyEngine.Stack.Search | src/search/engine.rs:32-68 | the result is a solution inside the domains; none only when no solution exists; in exhaustive mode no solution has a smaller objective value; the loop terminates |
| LegacyEngine.SearcherSearch | src/search/mod.rs:31-47 | with the corrected initial agenda: the whole search returns a solution of the model, none only when the model has none, and the minimum of the objective in exhaustive mode |
| LegacyModel.Subscribe | src/model/mod.rs:204 | a row gains exactly the subscribed id |
| LegacyModel.SubscribeAll | src/model/mod.rs:263-265 | every row of the listed variables gains the id, and no other row changes |
| LegacyModel.NewVarKeeps | src/model/mod.rs:157-164 | adding an empty subscription row keeps the tables consistent |
| LegacyModel.ScalePosKeeps | src/model/mod.rs:194-208 | registering a positive scaling keeps the tables consistent |
| LegacyModel.ScaleNegKeeps | src/model/mod.rs:210-224 | registering a negative scaling keeps the tables consistent |
| LegacyModel.PlusKeeps | src/model/mod.rs:226-241 | registering an addition keeps the tables consistent |
| LegacyModel.SumKeeps | src/model/mod.rs:249-268 | registering a sum keeps the tables consistent |
| LegacyModel.EqKeeps | src/model/mod.rs:281-289 | registering an equality keeps the tables consistent |
| LegacyModel.LeqKeeps | src/model/mod.rs:291-299 | registering a `<=` keeps the tables consistent |
| LegacyModel.CustomKeeps | src/model/mod.rs:301-309 | registering a custom propagator that decides its constraint once its variables are set keeps the tables consistent |
| LegacyModel.Model.constructor | src/model/mod.rs:147-153 | no variable, no propagator, consistent tables |
| LegacyModel.Model.NewVarImpl | src/model/mod.rs:157-164 | appends `[min, max]` with an empty row and returns the old variable count |
| LegacyModel.Model.NewVarBinaryImpl | src/model/mod.rs:166-168 | a new variable over `[0, 1]` |
| LegacyModel.Model.CstImpl | src/model/mod.rs:170-172 | a new variable set to the value |
| LegacyModel.Model.NewVarsImpl | src/model/mod.rs:174-176 | `n` new variables with consecutive ids, each over `[min, max]` |
| LegacyModel.Model.NewVarsBinaryImpl | src/model/mod.rs:178-180 | `n` new variables over `[0, 1]` with consecutive ids, each with an empty subscription row; the propagator tables are unchanged |
| LegacyModel.Model.ScalePosImpl | src/model/mod.rs:194-208 | a new variable over the scaled bounds, admitting `coef * x` for every value of `x`, with the propagator registered |
| LegacyModel.Model.ScaleNegImpl | src/model/mod.rs:210-224 | the same with the bounds swapped for a negative coefficient |
| LegacyModel.Model.OppositeImpl | src/model/mod.rs:182-184 | a new variable over `[-x.max, -x.min]` admitting `-x` |
| LegacyModel.Model.ScaleImpl | src/model/mod.rs:186-192 | coefficient 0 gives the constant 0 and no propagator; a negative one a `ScaleNeg`, a positive one a `ScalePos`; the new variable is `coef * x` in every solution; only the scaling tables change, and every old entry and subscription is kept |
| LegacyModel.Model.PlusImpl | src/model/mod.rs:226-241 | a new variable over `[x.min + y.min, x.max + y.max]` admitting `x + y`, subscribed by `x` and `y` only |
| LegacyModel.Model.MinusImpl | src/model/mod.rs:243-247 | two new variables, the opposite of `y` and `x + (-y)`, admitting `-y` and `x - y` |
| LegacyModel.Model.EqImpl | src/model/mod.rs:281-289 | registers `x == y`, subscribed by both, with no new variable |
| LegacyModel.Model.LeqImpl | src/model/mod.rs:291-299 | registers `x <= y`, subscribed by both, with no new variable |
| LegacyModel.Model.SumImpl | src/model/mod.rs:249-268 | a new variable over `[Σ min, Σ max]` admitting the sum of every assignment, subscribed by every term but not by itself |
| LegacyModel.Model.PropagatorImpl | src/model/mod.rs:301-309 | subscribes the custom propagator to each listed variable and stores it |
| LegacyModel.Model.ScaleTerms | src/model/mod.rs:271-276 | one scaled term per `(x, coef)` pair up to the shorter slice, each `coef * x` in every solution; only the two scaling tables change, and they and every subscription row keep their old entries |
| LegacyModel.Model.LinearImpl | src/model/mod.rs:270-279 | the result admits `Σ coef * x` for every assignment and equals it in every solution; the sum table gains exactly `(r, the new term ids)`, only the scaling tables change otherwise, every old entry and subscription is kept, and every solution of the new model solves the old one |
| LegacyModel.GrowsKeepsSolutions | src/model/mod.rs:186-309 | the registering operations only append to tables and rows, so a solution of the extended model satisfies every propagator declared before |
| LegacyModel.Model.Search | src/model/mod.rs:328-331 | with the corrected initial agenda: a solution of the model inside the declared domains; none only when none exists; the least objective value in exhaustive mode |
| LegacyModel.Model.SolveImpl | src/model/mod.rs:311-316 | with the corrected initial agenda: adds the dummy objective `0` and returns a solution of the extended model, or none when none exists |
| LegacyModel.Model.MinimizeImpl | src/model/mod.rs:318-320 | with the corrected initial agenda: a solution with the least value of `obj` among all solutions |
| LegacyModel.Model.MaximizeImpl | src/model/mod.rs:322-326 | with the corrected initial agenda: a solution with the greatest value of `obj` among all solutions of the extended model |
| VarStore.Vars.constructor | src/vars.rs:8-10 | no variable |
| VarStore.Vars.NewVarWithBounds | src/vars.rs:14-20 | appends `[min, max]` and returns the old length as the new id |
| VarStore.Vars.Clone | src/vars.rs:8-10 | a fresh store with the same domains |
| Views.Underlying | src/views.rs:136-138 | the variable a view depends on exists in the store |
| Views.ViewBounds | src/views.rs:140-144 | a view's value under any assignment inside the domains lies between `min_raw` and `max_raw` |
| Views.ViewNarrower | src/views.rs:140-144 | the reads only tighten as the domains narrow |
| Views.ViewReads | src/views.rs:136-144 | a view reads only its underlying variable |
| Views.ViewAssigned | src/views.rs:140-144 | once every variable is set, both reads equal the view's value |
| Views.UnderlyingList | src/props/eq.rs:32-37 | the underlying variable as an iterator of at most one id |
| Views.PairTriggers | src/props/eq.rs:31-38 | the underlying variables of `x` and then of `y`, none for a constant; `src/props/leq.rs:28-35` is the same function for `<=` |
| Views.NewTimesPos | src/views.rs:362-367 | a view of `scale * x` with the same underlying variable, for a positive scale |
| Views.NewTimesNeg | src/views.rs:75-77 | `TimesPos` of the opposite by the negated scale is a view of `scale * x` |
| Views.NewTimes | src/views.rs:299-309 | a view of `scale * x`; the zero scale has no underlying variable |
| Views.Context.constructor | src/views.rs:89-91 | the context holds the given domains and log |
| Views.Context.TrySetMin | src/views.rs:94-112 | fails, changing nothing, exactly when `min` exceeds the maximum; otherwise the minimum becomes the larger of the two, an event is logged only on a strict rise, and the new minimum is returned |
| Views.Context.TrySetMax | src/views.rs:115-132 | fails, changing nothing, exactly when `max` is below the minimum; otherwise the maximum becomes the smaller of the two, an event is logged only on a strict fall, and the new maximum is returned |
| Views.Context.ViewTrySetMin | src/views.rs:161-391 | through every view kind: fails, changing nothing, exactly when `min` exceeds the view's maximum; otherwise only the underlying variable changes, and of the old assignments exactly those where the view is at least `min` remain |
| Views.Context.ViewTrySetMax | src/views.rs:161-391 | the mirror image: fails exactly when `max` is below the view's minimum; otherwise exactly the assignments where the view is at most `max` remain |
| AddProp.AddTriggers | src/props/add.rs:35-41 | `s` first, then the underlying variables of `x` and `y` |
| AddProp.AddBounds | src/props/add.rs:21-32 | the six bounds `prune` imposes hold for every solution inside the domains |
| AddProp.TightenSum | src/props/add.rs:22-23 | the new domains, or failure, are exactly `SumStep` of the old ones (raise `s.min` to `x.min + y.min`, then lower `s.max` to `x.max + y.max`, failing when `s` empties); only `s` changes and no solution is lost; with no shared variable, the assignments kept are exactly those with `s` in `[x.min + y.min, x.max + y.max]` |
| AddProp.SumStepCut | src/props/add.rs:22-23 | when `x` and `y` do not read `s`, the step leaves every domain but `s` alone, sets `s` to `[x.min + y.min, x.max + y.max]` cut by its domain, and fails only when that cut is empty |
| AddProp.TightenX | src/props/add.rs:25-26 | the new domains, or failure, are exactly `XStep` of the old ones (`x` cut to `[s.min - y.max, s.max - y.min]`, failing when it empties); only `x`'s variable changes and no solution is lost; with no shared variable, the assignments kept are exactly those with `x` in that interval |
| AddProp.TightenY | src/props/add.rs:28-29 | the new domains, or failure, are exactly `YStep` of the old ones (`y` cut to `[s.min - x.max, s.max - x.min]`, failing when it empties); only `y`'s variable changes and no solution is lost; with no shared variable, the assignments kept are exactly those with `y` in that interval |
| AddProp.PruneAdd | src/props/add.rs:20-33 | the new domains, or failure, are exactly `PruneAddSpec`, the three steps in order; only narrows, and only the trigger variables; keeps every solution of `x + y == s`; with no shared variable, success leaves `s` at its cut and the assignments kept are exactly those meeting the three successive cuts, and failure means no assignment meets them |
| AddProp.AddCompose | src/props/add.rs:20-33 | the three cuts, each keeping exactly its own interval and touching only its own variable, compose into exactly the assignments meeting all three |
| AddProp.PruneAddDoubled | src/props/add.rs:20-33 | with `x = 2v`, `y = 2w`, `v, w` in `[0, 2]` and `s = 3`, `prune` succeeds with `v` in `[0, 1]` and `w` in `[1, 1]`, though no assignment satisfies `2v + 2w == 3`: success does not mean a solution exists |
| SumProp.Underlyings | src/props/sum.rs:43-45 | exactly the underlying variables of the terms |
| SumProp.SumTriggers | src/props/sum.rs:41-48 | the terms' underlying variables, then `s` last |
| SumProp.TotalBounds | src/props/sum.rs:21-23 | the sum of the values lies between the sums of the reads |
| SumProp.TightenTotal | src/props/sum.rs:25-26 | the new domains, or failure, are exactly `TotalStep` (raise `s.min` to `min_of_terms`, then lower `s.max` to `max_of_terms`); only `s` changes, no solution is lost, and the assignments kept are exactly those with `s` in the cut |
| SumProp.TightenTerm | src/props/sum.rs:33-34 | the new domains, or failure, are exactly `TermStep`; only the term's variable changes; the assignments kept are exactly those whose term value lies in `[min - (max_of_terms - x.max), max - (min_of_terms - x.min)]` |
| SumProp.NarrowTerm | src/props/sum.rs:32-35 | one loop turn advances `TermsSteps` by one term or fails exactly when it fails; it keeps the solutions and touches only the current term; with no shared variable, the assignments kept are exactly those meeting the cuts so far |
| SumProp.NarrowTerms | src/props/sum.rs:32-35 | the whole loop gives exactly `TermsSteps` from the first term; no solution is lost; with no shared variable, success keeps exactly the assignments meeting every term's cut, and failure keeps none that does |
| SumProp.PruneSum | src/props/sum.rs:19-39 | the new domains, or failure, are exactly `PruneSumSpec`; only narrows, and only the trigger variables; keeps every solution of `sum(xs) == s`; with no shared variable, success leaves `s` at its cut and the assignments kept are exactly those meeting the cut of `s` and every term's cut, and failure means none meets them |
| EqualsProp.RaiseToMin | src/props/eq.rs:21 | `dst.try_set_min(src.min)` loses no assignment where the views agree |
| EqualsProp.LowerToMax | src/props/eq.rs:22 | `dst.try_set_max(src.max)` loses no assignment where the views agree |
| EqualsProp.CopyBounds | src/props/eq.rs:21-22 | on views with no shared variable, `dst` ends inside `src`'s old bounds; on distinct variables it becomes their intersection and fails exactly when they do not overlap |
| EqualsProp.CopyExact | src/props/eq.rs:21-22 | raising then lowering an interval to another's bounds gives their intersection, and succeeds exactly when they overlap |
| EqualsProp.Meet | src/props/eq.rs:19-29 | a value is in the meet exactly when it is in both domains |
| EqualsProp.PruneEquals | src/props/eq.rs:19-29 | only narrows the trigger variables; keeps every solution of `x == y`; on two distinct variables it fails exactly when they share no value and otherwise leaves both equal to the intersection |
| LeqProp.PruneLeq | src/props/leq.rs:19-26 | only narrows the trigger variables; keeps every solution of `x <= y`; with no shared variable it fails exactly when `x.min > y.max`, and otherwise keeps exactly the assignments with `x <= old y.max` and `y >= old x.min` |
| Registry.Prune | src/props/add.rs:20-33 | dispatching on the propagator kind (the `Prune` implementations for `Add` here and, in the same form, `sum.rs:19-39`, `eq.rs:19-29` and `leq.rs:19-26`) only narrows the trigger variables and keeps every solution of its constraint |
| Registry.Subscribe | src/props/mod.rs:1-5 | each trigger variable's row gains the new id at its end; the other rows are unchanged |
| Registry.LessThanProp | src/model.rs:231-233 | `x < y` as `x + 1 <= y`: it holds exactly when `x < y` |
| Registry.Propagators.constructor | src/props/mod.rs:1-5 | no dependency row and no propagator |
| Registry.Propagators.OnNewVar | src/props/mod.rs:9-11 | appends one empty dependency row |
| Registry.Propagators.Clone | src/props/mod.rs:2 | a fresh store with the same rows and propagators |
| Registry.Propagators.Register | src/props/mod.rs:1-5 | the propagator takes the next id and every trigger variable's row gains it |
| Registry.Propagators.Add | src/model.rs:197 | registers `x + y == s` |
| Registry.Propagators.Sum | src/model.rs:215 | registers `sum(xs) == s` |
| Registry.Propagators.Equals | src/model.rs:222 | registers `x == y` |
| Registry.Propagators.LessThanOrEquals | src/model.rs:227 | registers `x <= y` |
| Registry.Propagators.LessThan | src/model.rs:232 | registers `x < y` |
| Registry.Propagators.GreaterThanOrEquals | src/model.rs:237 | registers `x >= y` |
| Registry.Propagators.GreaterThan | src/model.rs:242 | registers `x > y` |
| Agendas.Dedup | src/search/agenda.rs:14-22 | the ids without repeats, each kept at its first position |
| Agendas.DedupDistinct | src/search/agenda.rs:14-22 | ids without repeats are kept as they are |
| Agendas.DedupShorter | src/search/agenda.rs:14-22 | deduplication never lengthens the list |
| Agendas.DedupOrder | src/search/agenda.rs:14-22 | the ids come out in the order of their first occurrences, so `with_props` queues them first come, first served |
| Agendas.Agenda.constructor | src/search/agenda.rs:6-10 | an empty queue and set |
| Agendas.Agenda.WithProps | src/search/agenda.rs:14-22 | the queue is the given ids without repeats, in order |
| Agendas.Agenda.Schedule | src/search/agenda.rs:25-34 | an id already queued stays where it is; any other goes to the back and into the set |
| Agendas.Agenda.Pop | src/search/agenda.rs:37-45 | the front id leaves both the queue and the set; `None` on an empty queue |
| Spaces.Space.constructor | src/search/branch.rs:5-20 | the space holds the given variables and propagators, the two fields that `split_on_unassigned` and `Mode::on_branch` (`src/search/mode.rs:40-45`) read and extend |
| Spaces.Space.Clone | src/search/branch.rs:11 | a fresh space with the same domains, rows and propagators |
| Modes.Enumerate.OnBranch | src/search/mode.rs:9-11 | schedules nothing |
| Modes.Minimize.constructor | src/search/mode.rs:31-36 | no minimum recorded |
| Modes.Minimize.OnBranch | src/search/mode.rs:40-45 | before any solution, nothing; afterwards exactly one new propagator, admitting exactly the assignments whose objective is below the recorded minimum, with its id appended to the rows of its trigger variables and every other row unchanged |
| Modes.Minimize.OnSolution | src/search/mode.rs:47-50 | records the objective's lower bound in the solution's domains |
| Modes.MinimumDrops | src/search/mode.rs:48 | the value recorded next is strictly below the previous minimum |
| Branching.FirstUnassigned | src/search/branch.rs:6 | the first variable whose domain is not a singleton; none exactly when all are set |
| Branching.SplitOnUnassigned | src/search/branch.rs:5-20 | with every variable set, no branch; otherwise a copy with `pivot <= mid` then the space itself with `pivot > mid`, which split every assignment between them, each half of the pivot's domain being nonempty; in each branch the new propagator's id is appended to the pivot's dependency row and the other rows are the original ones |
| ModelApi.AddExtends | src/model.rs:192-200 | giving `s` the value `x + y` keeps an assignment inside the domains and satisfies the new propagator |
| ModelApi.SumExtends | src/model.rs:208-218 | giving `s` the sum keeps an assignment inside the domains and satisfies the new propagator |
| ModelApi.Model.constructor | src/model.rs:134-138 | no variable and no propagator |
| ModelApi.Model.NewVarUnchecked | src/model.rs:186-189 | a new variable over `[min, max]` with its own empty dependency row |
| ModelApi.Model.NewVar | src/model.rs:145-151 | a variable exactly when `min < max`; otherwise nothing changes |
| ModelApi.Model.NewVars | src/model.rs:158-169 | `n` variables with consecutive ids, each with a new empty dependency row and the old rows kept, exactly when `min < max`; otherwise nothing changes |
| ModelApi.Model.NewVarBinary | src/model.rs:172-174 | a new variable over `[0, 1]`, as a binary view |
| ModelApi.Model.NewVarsBinary | src/model.rs:177-179 | `n` binary variables with consecutive ids, each with a new empty dependency row, the old rows kept |
| ModelApi.Model.Add | src/model.rs:192-200 | a new variable over `[x.min + y.min, x.max + y.max]` with its own row, and the propagator `x + y == s` subscribed on the rows of `s`, `x` and `y`; every old assignment extends to a feasible one |
| ModelApi.Model.SumIter | src/model.rs:203-218 | a new variable over `[Σ min, Σ max]` with its own row, and the propagator `sum(xs) == s` subscribed on the rows of its terms and of `s`; every old assignment extends to a feasible one |
| ModelApi.FeasibleAppend | src/model.rs:220-243 | declaring one more propagator leaves feasible exactly the assignments that were feasible and satisfy it |
| ModelApi.Model.Equals | src/model.rs:221-223 | the domains are unchanged; one propagator is added and subscribed on the rows of `x` and `y`, the other rows unchanged; the feasible assignments become exactly the old ones with `x == y` |
| ModelApi.Model.LessThanOrEquals | src/model.rs:226-228 | likewise: one propagator, subscribed on the rows of `x` and `y`, keeping exactly the feasible assignments with `x <= y` |
| ModelApi.Model.LessThan | src/model.rs:231-233 | likewise: one propagator, subscribed on the rows of `x` and `y`, keeping exactly the feasible assignments with `x < y` |
| ModelApi.Model.GreaterThanOrEquals | src/model.rs:236-238 | likewise: one propagator, subscribed on the rows of `x` and `y`, keeping exactly the feasible assignments with `x >= y` |
| ModelApi.Model.GreaterThan | src/model.rs:241-243 | likewise: one propagator, subscribed on the rows of `x` and `y`, keeping exactly the feasible assignments with `x > y` |
| ModelApi.Model.Enumerate | src/model.rs:280-282 | every assignment yielded is feasible; nothing is yielded only when none is feasible |
| ModelApi.Model.Solve | src/model.rs:273-275 | a feasible assignment, or none when there is none |
| ModelApi.Model.MinimizeAndIterate | src/model.rs:254-256 | feasible assignments with strictly decreasing objective, the last being the least |
| ModelApi.Model.Minimize | src/model.rs:247-249 | a feasible assignment with the least objective value, or none when none is feasible |
| ModelApi.Model.MaximizeAndIterate | src/model.rs:267-269 | feasible assignments with strictly increasing objective, the last being the greatest |
| ModelApi.Model.Maximize | src/model.rs:260-262 | a feasible assignment with the greatest objective value, or none when none is feasible |
| ModelApi.NewVarRejectsEmptyAndSingleton | src/tests.rs:3-10 | `new_var(1, 1)` and `new_var(1, 0)` are refused, `new_var(0, 1)` gives the first id |

## Left out

- Integer width. Domains, views and sums use unbounded `int`. The source uses `i32`, so an
  overflow in `x.min + y.min`, in a product or in a sum panics in debug builds and wraps in
  release builds. Neither is modelled. `Ints.MinusOneGuardIsOverflowOnly` shows the one
  place where the code guards against overflow.
- Sharing and copying. The older engine shares spaces through `Rc` and clones boxed custom
  propagators. Each task's space is modelled as a value copy, and a custom propagator as a
  value holding a function.
- `HashSet` hashing in the newer agenda is modelled as a mathematical `set`.
- Lazy iterators are modelled as finite sequences: `new_vars`, `new_vars_binary`, `from_vars`,
  `branch_on`, `split_on_unassigned`, and the iterators returned by `enumerate` and
  `minimize_and_iterate`.
- The newer `search::search` is not part of this model. `ModelApi` takes it as a `Search`
  parameter and assumes only its boundary contract, `SearchContract`: yielded assignments
  are feasible, nothing is yielded only when nothing is feasible, and in minimising mode the
  objective decreases and the last value yielded is least.
- Several helpers are called by the core but their definitions are not part of this model.
  Each gets the natural definition and a contract:
  - the older `Vars::try_set_min`, `try_set_max`, `try_set_min_and_max`, `drain_events` and
    `get_assignment_if_all_set`;
  - `Var::is_set` and `Var::mid`, and `Vars::get_unassigned_var`;
  - the newer `Propagators::add`, `sum`, `equals`, `less_than_or_equals`, `less_than`,
    `greater_than_or_equals` and `greater_than`;
  - `Solution::new`;
  - the newer `Space` struct, whose fields are read in `src/search/branch.rs` and
    `src/search/mode.rs`.
  - Registry.Subscribe appends the new id once to each trigger's row, even when the same
    variable is a trigger twice (`add(x, x)`). If the source's `Propagators` helpers push once per
    trigger, they list the id twice there. Nothing modelled depends on this: the newer
    agenda deduplicates ids, and the newer search is a parameter.
- The `wasm_bindgen` bindings (`src/model/wasm.rs`) and the generic trampolines
  (`src/model/generic.rs`) are left out. They only convert handles and forward to the
  `*_impl` methods that are modelled. The `Strategy` wrapper (`src/model/mod.rs:334-365`) is
  left out for the same reason.
- `Model::sum` only collects a slice into `sum_iter`. It is covered by
  `ModelApi.Model.SumIter`.
- The knapsack benchmark and the `pc` example are end-to-end uses, not part of the engine.
- `Solution`'s `Index` implementation is plain indexing of the value sequence.
- Views.Context.ViewTrySetMin: the value returned on success is not pinned down beyond being
  `Some`. Callers discard it.
- Views.Context.ViewTrySetMax: likewise.
- Branching.SplitOnUnassigned: requires every domain to be nonempty. The source keeps this as
  an invariant of every space it branches on, because a failed propagation never reaches
  branching.
- LegacyModel.Model.PropagatorImpl: requires that the custom propagator only narrows, keeps
  the solutions of its constraint, and decides it once its variables are set. The source
  takes arbitrary user code and relies on these properties without checking them.
- LegacyModel.Model.SumImpl: requires a nonempty term list, because the source panics on an
  empty one.
- LegacyModel.Model.LinearImpl: requires nonempty `xs` and `coefs`, because with no pair the
  source reaches the same `sum_impl` panic on an empty slice.
- LegacyModel.Model.Search: requires a well-formed model. Every public builder establishes
  one, and no other way of building a model is exposed.
- LegacyEngine.SearcherSearch: runs the corrected `PropagateWithAllProps`, not
  `PropagateWithAllPropsAsWritten`. With a custom propagator, the source as written can
  report a violating assignment (`LegacySearch.CustomIgnoredExample`). The contract holds for
  the source only when no custom propagator is declared (`LegacySearch.InitialAgendaNoCustom`).
- LegacyModel.Model.Search: likewise runs the corrected initial agenda, through
  `LegacyEngine.SearcherSearch`.
- LegacyModel.Model.SolveImpl: likewise; the promised solution assumes the corrected agenda.
- LegacyModel.Model.MinimizeImpl: likewise; the promised minimum assumes the corrected agenda.
- LegacyModel.Model.MaximizeImpl: likewise; the promised maximum assumes the corrected agenda.
- AddProp.PruneAdd: success does not mean a solution exists, because `prune` only cuts
  bounds (`AddProp.PruneAddDoubled`). The contract states the exact cut kept, not
  satisfiability.
- SumProp.PruneSum: likewise, success means only that no cut emptied a domain.
- ModelApi.Model.MinimizeAndIterate: the order and completeness of what is yielded come from
  `SearchContract`, not from a model of the newer search.

## Findings

| source | as written | input that shows it | evidently intended | confidence | as-written member | corrected member |
|---|---|---|---|---|---|---|
| src/search/mod.rs:53-60 | the initial agenda lists every built-in propagator but omits the custom ones, so a custom propagator runs only after one of its variables changes | one variable over `[1, 1]` with a custom propagator for `x != 1`: the initial propagation schedules nothing and ends `Done([1])`, reporting a violating assignment as a solution (`LegacySearch.CustomIgnoredExample`) | every declared propagator, custom ones included, runs in the initial propagation | not executed | LegacySearch.PropagateWithAllPropsAsWritten | LegacySearch.PropagateWithAllProps |
