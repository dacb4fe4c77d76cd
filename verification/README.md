# Type-matchup counters: rule generators and their evaluation

This project models the rule descriptors of the pt-builder server's expert engine
(`src/engine/expert/generators.js`). The engine counts type matchups against an
enemy roster with three kinds of rule:

- `ruleStrong(id, type, strongTypes, cache)` matches when roster member `id` has
  `type` among its types. It has priority 100. On success it adds one to
  `cache.strongCounter[t]` for every `t` in `strongTypes`, and a missing key
  counts as 0.
- `ruleWeak(id, type, weakTypes, cache)` does the same to `cache.weakCounter`.
- `ruleCounters(cache)` matches when the `returnCounters` fact equals `true`. It
  has priority 10. Its event carries the two counter maps, and it has no handler.

Files and modules:

- `wrappers.dfy`, module `Wrappers`: `Option`, used for the snapshot that may or
  may not be emitted.
- `counter_maps.dfy`, module `CounterMaps`: the counter maps (`map<string, nat>`)
  and the `forEach` increment. `Bump` is the increment as a left-to-right
  recursion. `IncrementEach` is the same increment as a loop. `Added(m, bag, m')`
  is the reference meaning of both (`BumpAdds`): every type's count rises by its
  multiplicity in the bag, and no other key appears.
- `generators.dfy`, module `Generators`: the data model and the parts that come
  from the generators. This covers `Facts`, `Cache`, `Rule` and `Event`, and the
  functions `Priority`, `Matches`, `EventOf` and `OnSuccess`. In the source the
  cache is captured by a closure. Here it is passed to the handler explicitly,
  and the handler returns the new cache.
- `engine.dfy`, module `Engine`: evaluation. The rules-engine library is not
  part of this model, so its ordering is an assumption. It evaluates rules one at
  a time, in an order of non-increasing priority (rules of equal priority in any
  order). Each matched rule's handler finishes before the next rule is
  evaluated. `Run` is that engine over a given schedule. `Evaluate` is the
  two-stage reading: all matched priority-100 handlers, then the priority-10
  emission. `RunAgreesWithEvaluate` proves that every admissible schedule of a
  rule set gives the two-stage result.

Behaviour of the code that the model keeps exactly:

- Each strong or weak rule is bound to one roster index `id` (the path
  `$.<id>.types`), not to every member of the roster. An index outside the roster resolves to
  nothing and does not match.
- A type that no matched rule mentions has no key in its counter. It is not
  mapped to 0. So an empty roster emits two empty maps, not maps full of zeros
  (`EmptyRosterEmitsEmpty`).
- A type listed twice in a rule's list is counted twice, because `forEach`
  visits every entry.
- In the source, the `counters` rule descriptor's event `params` point at the
  two live counter maps. What a caller finally receives depends on the
  rules-engine library, which is not part of this model. The model takes a
  snapshot of the counters when the rule fires, and `EmissionSeesFinalCache`
  proves that this snapshot equals the final cache.
- The strong and weak events (`EventOf`) carry the rule's `id` and type list.
  `Run` records them, but no lemma states a property of their payloads.
- `AccumulatorsOutrankCounters` records the two priority values. The
  ordering theorems do not use it: they rest on `PriorityOrdered`, which is
  stated over `Priority`.

## Model

| member | source | states |
|---|---|---|
| CounterMaps.BumpAdds | src/engine/expert/generators.js:24-27 | Running the increment loop over a list adds each type's number of occurrences in the list to its count (absent reads as 0). A key is present afterwards exactly when it was present before or the list names it. |
| CounterMaps.IncrementEach | src/engine/expert/generators.js:24-28 | The index loop over the list computes the same map as the left-to-right recursion. That map adds each type's multiplicity and creates keys only for listed types. |
| CounterMaps.AddedGrows | src/engine/expert/generators.js:26-27 | Adding counts never removes a key and never lowers a count. |
| Generators.AccumulatorsOutrankCounters | src/engine/expert/generators.js:88 | Every strong or weak rule has a higher priority than the counters rule (100 against 10). |
| Generators.EvaluateCondition | src/engine/expert/generators.js:3-11 | A strong or weak condition holds exactly when index `id` is inside the roster and that member's type list contains the rule's type; an out-of-range index is no match. The counters condition holds exactly when `returnCounters` is true. |
| Generators.OnSuccess | src/engine/expert/generators.js:23-31 | The strong handler adds each listed type's multiplicity to `strongCounter`, leaves other keys as they were and leaves `weakCounter` equal. The weak handler is the mirror image. The counters rule changes nothing. |
| Generators.HandlerAdds | src/engine/expert/generators.js:57-62 | For either counter, a handler adds exactly its rule's contribution: the rule's list for its own counter, and nothing for the other counter. |
| Generators.HandlerMonotone | src/engine/expert/generators.js:59-61 | No handler lowers any count of either counter or removes a key. |
| Generators.HandlersCommute | src/engine/expert/generators.js:25-27 | Any two handlers applied in either order give the same cache. |
| Engine.Step | src/engine/expert/generators.js:21-31 | Evaluating one rule adds its contribution to each counter if the condition holds, and adds nothing otherwise. |
| Engine.RunAdds | src/engine/expert/generators.js:1-67 | After any schedule, each counter equals its start plus the tally of the matched rules in the schedule. |
| Engine.TallyPermutation | src/engine/expert/generators.js:25-27 | The total a rule set adds does not depend on the order its rules are listed in. |
| Engine.AccumulateAdds | src/engine/expert/generators.js:21-62 | The accumulation stage leaves each counter at its start plus the tally of the matched accumulation rules. |
| Engine.Evaluate | src/engine/expert/generators.js:69-89 | The final cache is the start plus the tally. A snapshot is emitted exactly when the rule set holds the counters rule and `returnCounters` is true. The emitted snapshot equals the final cache. With `returnCounters` false, nothing is emitted but the counts are still accumulated. |
| Engine.RunEmitsIff | src/engine/expert/generators.js:71-81 | A run fires a counters event exactly when its schedule holds the counters rule and `returnCounters` is true. |
| Engine.EmissionSeesFinalCache | src/engine/expert/generators.js:80-88 | On a schedule ordered by non-increasing priority, every counters event carries the cache as it is at the end of the run. |
| Engine.RunAgreesWithEvaluate | src/engine/expert/generators.js:82-88 | Every priority-ordered schedule of a rule set gives the two-stage result. The final cache is the same, a counters event fires exactly when a snapshot is emitted, and every such event carries that snapshot. |
| Engine.EvaluateOrderIndependent | src/engine/expert/generators.js:21-55 | Two listings of the same rule set evaluate to the same result. So evaluation from a fresh cache depends only on the roster, the flag and the rule set. |
| Engine.FreshCounts | src/engine/expert/generators.js:26-27 | From a fresh cache, each type's count is the sum over matched rules of its occurrences in their lists. A type whose sum is 0 has no key. |
| Engine.CountsNeverDecrease | src/engine/expert/generators.js:26-28 | At every point of a run, the counts only grow from the start to that point, and from that point to the end. |
| Engine.EmptyRosterEmitsEmpty | src/engine/expert/generators.js:80-86 | With an empty roster and `returnCounters` true, the emitted snapshot is two counters with no keys. |

## Left out

- The rules-engine library: JSON-path resolution, the almanac, fact lookup and
  the scheduling of the async handlers are not part of this model. Its
  priority-ordered, one-rule-at-a-time execution is the stated assumption behind
  `Run` and `PriorityOrdered`.
- `src/controllers/engine.js` and the team-selection step that consumes the
  counters are not part of this model.
- Missing or ill-typed facts are not modelled. The roster is a sequence of type
  lists and `returnCounters` is a boolean. An absent fact, a member without
  `types`, or a non-boolean flag cannot be expressed.
- Rule `id` is an integer. A non-integer or textual id in the path is not
  modelled.
- Counts are unbounded naturals. The floating-point limit of JavaScript numbers
  (above 2^53) is not modelled, and no realistic roster reaches it.
- The cache object's lifetime and its reuse across runs are caller behaviour.
  `Evaluate` states only that a run adds to whatever cache it starts from.
- `ruleCounters` fixes the two map objects when the rule is built: it reads
  `cache.strongCounter` and `cache.weakCounter` once. The handlers look the maps
  up through `cache` each time they run. The model assumes that `strongCounter`
  and `weakCounter` are never replaced on the cache object between building the
  rules and the end of the run. If a caller swapped in new maps, the source
  would emit the old maps while the handlers filled the new ones. The model's
  `CountersEvent` reads the cache when the rule fires, so it would report the
  new maps.
- Type names are assumed not to be names of `Object.prototype` properties.
  The counters are plain JavaScript objects, created in code that is not shown.
  On a fresh `{}`, `counter[t] ?? 0` yields an inherited function for a name
  such as `constructor` or `toString`, so `prev + 1` concatenates strings. For
  `__proto__` the assignment is dropped. `Get`, `Bump`, `BumpAdds` and
  `OnSuccess` instead treat every name as an ordinary key that starts at 0.
  Elemental type names never collide with these properties.
- HTTP controllers, Express routes and Mongoose schemas (`src/controllers/user.js`,
  `src/routes/*.js`, `src/schemas/team.js`) are I/O and persistence code with no
  counting logic.
