# pg-fort in Dafny

pg-fort is a proxy between PostgreSQL clients and a PostgreSQL server that adds row-level access
control. These modules model its core and prove what it is for: that a rewritten query shows exactly the
rows a user may see, that every row a user may see was bound to that user, there or on a row it
inherited from, and that the machinery which carries requests and responses keeps its own rules in every
interleaving.

- **The access-control rewrite.** `QueryAcler` is the three recursive procedures that loop over a parsed
  query's JSON tree and overwrite it, proved equal to the walk `Rewrite`; `AclClauses` says key by key
  what that walk does. `AclErasure` shows the rewrite only inserts joins and can be collapsed again,
  `AclCoverage` which tracked tables it leaves bare, `AclPositions` the same by where they stand. `Sql`
  is a typed FROM/SELECT fragment with a bag-valued evaluator: tables, the four join types, sub-selects,
  UNION, UNION ALL, INTERSECT, EXCEPT. `SqlAcl` proves what the typed rewrite means as a set, `SqlBags`
  how often rows occur, `SqlExact` when it is exact as a bag, `SqlScope` when it is well scoped;
  `SqlJson` proves that the tree walk on a parse tree is the typed rewrite, `SqlReader` reads parse trees by
  the names the database gives their keys, and reads back what the others build, and `AclLocations`
  carries the result over to trees that also say where in the text their nodes were.
- **Role bindings.** `RoleBindings` is the transition system of the SQL emitted for BIND, UNBIND, ENABLE
  ACCESS CONTROL, roles and inheritances, with row upserts that run the inheritance trigger and row
  deletes that cascade; `BindingRuns` is about whole runs of it. `BindingTrigger` says what the trigger
  leaves on a row, `BindingUpserts` what each statement does to each binding, by the bindings before it
  alone. `AccessControl` is the statements and the trigger's loop as methods on the tables.
  `BindingsView` joins the bindings with the permissions of the roles and links them to the rewritten
  query. `BindingExamples` holds concrete runs.
- **Sessions.** `Session` is the machine of twelve actions, as a function `Next` and as a class that
  carries it out on two buffers. `PluginGate` says by single plugins what the loops over them leave.
  `SessionRuns` describes whole runs, `SessionTraffic` what they send in terms of what the sockets
  delivered. `Scheduler` interleaves worker threads, the watcher and arriving sessions step by step over
  one shared queue and epoll set; `SchedulerRuns` shows that what is done to one session there is a run
  of it. `SessionOperators` is the code of one `Work` and one watcher pass, proved to be sequences of
  such steps.
- **Bytes.** `Buffers` is the receive buffer and the messages written into it, `Wire` the two messages
  and the loops that read them back, `Startup` the parameters of a startup message.
- **The deque.** `DequeTable` is the table with its sequence, locks and steps; `SharedDeque` an abstract
  deque shared by many clients and the refinement; `PersistentDeque` the client classes.
- **The connection pool.** `ConnPool` is the interleaved model of its unguarded check, and the classes.

Places where the source and its documentation or names differ, and the model follows the source: the
schema tracker filters names ending in `__acl__`, while the views it should filter end in `__acls__`, so
"tracked" is a parameter here; the operation `ALL` can be granted, but the inserted condition compares
with the text `SELECT` alone.

Five things one might expect do not always hold; each has an input that shows it, and a condition. The
rewrite gives the right set of rows but repeats a row that several bindings grant
(`SqlBags.TwoRolesDuplicate`, exactly `SqlExact.BagExactIff`). UNBIND does not reach copies of a binding
whose own row was deleted (`BindingExamples.UnbindLeavesCopy`, exactly `RoleBindings.UnbindCompleteIff`
for a state and `BindingRuns.CopyStaysIff` for a run). The trigger does not always leave the parent's
bindings (`BindingExamples.SecondUpsertTakesAway`, exactly `BindingTrigger.MergeExactIff`). The walk
does not reach every tracked table (`AclCoverage.WhereStaysBare`, `AclCoverage.TargetStaysBare`,
`AclCoverage.IntoStaysBare`, exactly `AclPositions.NothingBareIff` and, table by table,
`AclCoverage.BareIsUnreached`). The order in which the trigger takes the inheritances can matter
(`BindingExamples.OrderMattersForOwnParent`), though not when no row is its own parent
(`BindingTrigger.TriggerOrderFree`).

What comes from outside is a parameter: what a socket delivers, the result of a send, what plugins do,
readiness in epoll, the order in which a query returns rows, which of two conflicting row changes wins,
whether the database takes a value, and what other threads did to a queue while one waited.

## Model

| member | source | states |
|---|---|---|
| `QueryAcler.QueryAcler.AclQuery` | src/lib/query/query-acler.cpp:8-11 | a query object ends with the rewritten tree, or unchanged and reported as thrown exactly when the walk throws; its other field stays |
| `QueryAcler.QueryAcler.Acl` | src/lib/query/query-acler.cpp:13-27 | the loop over a statement's fields computes the walk `Rewrite` in its top mode |
| `QueryAcler.QueryAcler.AclSelectStmt` | src/lib/query/query-acler.cpp:29-64 | the loop over a SELECT's fields computes the walk `Rewrite` in its SELECT mode, of which `AclClauses.SelectKeys` says what it does with every key |
| `QueryAcler.QueryAcler.AclSelectStmtFromClause` | src/lib/query/query-acler.cpp:66-114 | the loop over a FROM clause computes the walk `Rewrite` in its FROM mode, ending at the first tracked table with the inserted join in place of the whole node |
| `QueryAcler.QueryAcler.EachItem` | src/lib/query/query-acler.cpp:15-26 | the same loops over an array treat every element in the mode of the array |
| `QueryAcler.Stepped` | src/lib/query/query-acler.cpp:68-113 | one turn of any of the three loops extends the finished prefix and leaves the rest of the walk as it was |
| `AclClauses.TopKeys` | src/lib/query/query-acler.cpp:13-27 | outside SELECT every key is entered, SelectStmt in SELECT mode, all others in top mode, and the walk throws exactly when it does for some of them |
| `AclClauses.SelectKeys` | src/lib/query/query-acler.cpp:29-64 | in SELECT mode fromClause becomes its rewrite in FROM mode; intoClause, whereClause and targetList stay as they are; every other clause, a WITH clause for instance, becomes its rewrite in SELECT mode; and exactly when the walk throws |
| `AclClauses.FromKeys` | src/lib/query/query-acler.cpp:66-114 | in FROM mode a node without a tracked table keeps its RangeVar; SelectStmt becomes its rewrite in SELECT mode and every other key its rewrite in FROM mode; it throws exactly when a RangeVar holds no name or the walk throws below |
| `AclClauses.FromReplaced` | src/lib/query/query-acler.cpp:68-103 | the first tracked RangeVar of a node puts the join for its name and alias in place of the whole node, unless the walk threw before it or the alias holds no text |
| `AclClauses.EveryItem` | src/lib/query/query-acler.cpp:15-26 | an array is rewritten element by element in the mode of the array |
| `AclErasure.EraseRewrite` | src/lib/query/query-acler.cpp:13-114 | collapsing the inserted joins of a rewritten tree gives back the original tree with tracked tables reduced to name and alias, in every mode, exceptions included |
| `AclErasure.InsertedRecognised` | src/lib/query/include/query/join_expr.tpl:1-146 | the expanded template determines the table and alias it was expanded for |
| `AclErasure.JoinFreeUnchanged` | src/lib/query/query-acler.cpp:66-114 | a walk whose result has no join in it changed nothing at all |
| `AclErasure.ClausesUntouched` | src/lib/query/query-acler.cpp:37-56 | in SELECT mode all keys stay in order, and INTO, WHERE and target clauses are the very same trees |
| `AclErasure.KeptLength` | src/lib/query/query-acler.cpp:29-64 | a node the walk keeps has its keys in order, and each value is the very same or the rewrite of it in the mode that the mode of the node and the key name |
| `AclCoverage.BareIsUnreached` | src/lib/query/query-acler.cpp:13-114 | the tracked tables left bare in a rewritten tree, as a RangeVar or as the target of a statement or INTO, are, in order, exactly those in the clauses that a SELECT skips and those met otherwise than as a RangeVar of a FROM clause |
| `AclPositions.NothingBareIff` | src/lib/query/query-acler.cpp:13-114 | by position: no tracked table is left bare if and only if each stands in, or is, a node that has a tracked RangeVar, is below a fromClause that is below a SelectStmt with no SelectStmt since, and is reached through no INTO, WHERE or target clause of a SELECT and no other RangeVar |
| `AclPositions.FromTablesCovered` | src/lib/query/query-acler.cpp:29-114 | in particular when every tracked table is itself such a RangeVar, in common table expressions and sub-selects at any depth, nothing is left bare |
| `AclCoverage.WhereStaysBare` | src/lib/query/query-acler.cpp:41-48 | an input: the walk changes nothing when the tracked table is in the FROM clause of a sub-query in WHERE |
| `AclCoverage.TargetStaysBare` | src/lib/query/query-acler.cpp:13-27 | an input: the walk changes nothing when the tracked table is the target of a DELETE, INSERT or UPDATE |
| `AclCoverage.IntoStaysBare` | src/lib/query/query-acler.cpp:37-40 | an input: the walk changes nothing when a SELECT writes INTO the tracked table |
| `AclCoverage.ReplacedIff` | src/lib/query/query-acler.cpp:68-103 | a walk that ends well replaces a node exactly when it is in a FROM clause and holds a tracked table as its RangeVar |
| `SqlAcl.QuerySame` | src/lib/query/query-acler.cpp:29-114 | for every query of the fragment and every database, the rewritten query gives as a set exactly the original query over the database whose tracked tables keep only the permitted rows |
| `SqlAcl.FromSame` | src/lib/query/query-acler.cpp:66-114 | the same for one FROM item, through nested joins of all four types and sub-selects, seen through the original references |
| `SqlAcl.AclQualsMean` | src/lib/query/include/query/join_expr.tpl:14-135 | the inserted condition is true of a row and an access row exactly when ids are equal and not null, the principal is the current user and the operation is SELECT |
| `SqlAcl.GuardedJoinSame` | src/lib/query/include/query/join_expr.tpl:2-145 | joining a table with its access rows under such a condition gives, as a set, the permitted rows |
| `SqlAcl.JoinSame` | src/lib/query/query-acler.cpp:109-112 | rewriting below a join of any type keeps the set of its rows, null-extended ones included |
| `SqlBags.FromsMultiplied` | src/lib/query/query-acler.cpp:66-113 | for a FROM list of tables and inner joins, a row of the rewritten query occurs as often as before times the product over all its tracked tables of the matching access rows, and over the permitted rows as often as before or, without a match, never |
| `SqlBags.RowsMultiplied` | src/lib/query/include/query/join_expr.tpl:3-145 | the same for one FROM item |
| `SqlExact.BagExactIff` | src/lib/query/include/query/join_expr.tpl:3-145 | every query of the fragment, with outer joins, sub-selects and set operations, gives under the rewrite every row as often as the original over the permitted rows, if and only if no row of a tracked table is granted to the user twice |
| `SqlExact.SetOpExact` | src/lib/query/query-acler.cpp:57-62 | a query made with UNION, INTERSECT or EXCEPT is exact as a bag however often its rows are granted |
| `SqlExact.QueryExact` | src/lib/query/query-acler.cpp:29-114 | when no row is granted twice the two answers are the same rows in the same order |
| `SqlExact.JoinSeen` | src/lib/query/query-acler.cpp:109-112 | a join of any type of rewritten inputs, seen through the original references, is the join of the inputs so seen |
| `SqlExact.IdQueryExactSingle` | src/lib/query/include/query/join_expr.tpl:3-145 | selecting the ids of one tracked table gives the right number of rows only if none of them is granted twice |
| `SqlBags.TwoRolesDuplicate` | src/lib/query/proxy-command.cpp:109-112 | a concrete input: two roles with SELECT make the user see one row twice |
| `SqlBags.CountMatched` | src/lib/query/query-acler.cpp:109-112 | how often a row occurs in a join, from how often its parts occur in the inputs, with inserted references present |
| `SqlScope.ScopedIff` | src/lib/query/include/query/join_expr.tpl:5-13 | the rewrite of a well-scoped query is well scoped if and only if no tracked reference has its access reference taken beside it |
| `SqlScope.DistinctFroms` | src/lib/query/include/query/join_expr.tpl:136-144 | the references of a rewritten FROM list are distinct exactly when they were and none clashes with an inserted one |
| `SqlScope.AclQualsScoped` | src/lib/query/include/query/join_expr.tpl:14-135 | the inserted condition names the two references of the inserted join and no other |
| `SqlScope.TablesAcl` | src/lib/query/query-acler.cpp:66-114 | the rewritten query reads the original tables and one access view for each tracked one, nothing else |
| `SqlJson.StatementAgrees` | src/lib/query/query-acler.cpp:13-114 | on the parse tree of any query of the fragment the code's walk returns the parse tree of the typed rewrite |
| `SqlJson.StatementSecured` | src/lib/query/query-acler.cpp:8-114 | end to end: rewriting the parse tree gives the parse tree of a query whose answer is, as a set, the original answer over the permitted rows |
| `SqlJson.FromAgrees` | src/lib/query/query-acler.cpp:66-114 | the same agreement for one FROM item |
| `SqlJson.QualsAgree` | src/lib/query/include/query/join_expr.tpl:14-135 | the template's condition is the parse tree of the typed condition |
| `SqlReader.InsertedRead` | src/lib/query/include/query/join_expr.tpl:1-146 | read by the names of its keys and enumerations the template is the inner join of the table with its access view, each under its alias, on equal ids, the current user as principal and the operation SELECT |
| `SqlReader.StatementRead` | tests/out/parsed_04.json:1-159 | every query of the fragment is read back from its parse tree, so no two have the same |
| `SqlReader.RewriteRead` | src/lib/query/query-acler.cpp:8-114 | end to end: what the rewritten parse tree of a query reads as answers, as a set, like the original over the permitted rows |
| `AclLocations.DropRewrite` | src/lib/query/query-acler.cpp:13-114 | the locations, lengths and version that the parser adds make no difference: dropping them from any tree and rewriting it is rewriting it and dropping them, in every mode, exceptions included |
| `AclLocations.LocatedSecured` | tests/out/parsed_04.json:1-159 | so a tree that is the parse tree of a query but for these is rewritten to one that is, but for these, the parse tree of a query with the original answer, as a set, over the permitted rows |
| `BindingRuns.EveryBindingWasBound` | src/lib/query/proxy-command.cpp:363-370 | on every run any binding, in any table and at any depth, came along a path of upserts from one successful BIND, which drew its ref and granted its very role to its very principal; all bindings with that ref agree |
| `BindingRuns.RunTraced` | schema/20220817221633-initial.sql:86-92 | each upsert of the path is of the next row, whose parent under the binding's inheritance is the row before; that row had the binding the path comes from, unless the row is its own parent |
| `BindingRuns.BoundSinceLastUnbind` | src/lib/query/proxy-command.cpp:407-430 | on every run the BIND behind any binding comes after every successful UNBIND of its role and principal on its row, unless the row was deleted between the two |
| `BindingRuns.CopyStaysIff` | src/lib/query/proxy-command.cpp:97-101 | on every run a copy of what was bound on a row stays after UNBIND if and only if the row was deleted after the BIND that drew the copy's ref |
| `BindingRuns.RootedIff` | src/lib/query/proxy-command.cpp:98 | on every run a ref's own binding is there if and only if its row was not deleted since the BIND |
| `RoleBindings.StepGood` | src/lib/query/proxy-command.cpp:89-107 | every statement keeps all foreign keys and the agreement of each binding with the BIND of its ref |
| `RoleBindings.MergeGood` | schema/20220817221633-initial.sql:84-99 | the trigger's statement keeps them although on conflict it renews the time stamp alone |
| `BindingRuns.RunGood` | schema/20220817221633-initial.sql:75-104 | so does every run |
| `BindingRuns.LoggedByBind` | src/lib/query/proxy-command.cpp:363-370 | every ref on record was drawn by a successful BIND of the run, with the role, principal and row on record |
| `RoleBindings.UnbindExact` | src/lib/query/proxy-command.cpp:407-430 | UNBIND removes in every table exactly the bindings with a ref of the row's own bindings for that role and principal; all of them grant that role to that principal; the rest is unchanged and has its refs |
| `RoleBindings.UnbindCompleteIff` | src/lib/query/proxy-command.cpp:97-101 | UNBIND leaves no copy of what was bound on the row if and only if every copy's own binding was still on that row |
| `RoleBindings.RootsStay` | src/lib/query/proxy-command.cpp:97-101 | a ref that a statement leaves has its own binding afterwards if and only if it had it before and the statement did not delete its row |
| `RoleBindings.UnbindLeavesIff` | src/lib/query/proxy-command.cpp:407-430 | UNBIND leaves a copy of what was bound on the row if and only if the copy's own binding was no longer there |
| `BindingRuns.UnbindRevokesEverywhere` | src/lib/query/proxy-command.cpp:375-437 | on every run in which the row is not deleted UNBIND leaves no copy anywhere |
| `RoleBindings.DeletedRowStrandsCopies` | src/lib/query/proxy-command.cpp:98 | once a row is deleted UNBIND on its id leaves every copy that other rows have |
| `BindingExamples.UnbindLeavesCopy` | src/lib/query/proxy-command.cpp:407-430 | a concrete run that ends with UNBIND on a deleted row and leaves the copy of its binding on another |
| `BindingExamples.SecondUpsertTakesAway` | schema/20220817221633-initial.sql:93-97 | a concrete run in which a row gets both bindings of its parent and loses both when it is upserted again |
| `BindingTrigger.RefsAfterMerge` | schema/20220817221633-initial.sql:86-97 | which refs a row has under an inheritance after the trigger, a conflicting one surviving for sure only when the parent has no other |
| `BindingTrigger.MergeExactIff` | schema/20220817221633-initial.sql:86-97 | whatever the database lets survive, the row ends with exactly the parent's refs if and only if the parent has one, or several that the row all lacked, or none and so has the row |
| `BindingTrigger.MergeCopiesParent` | schema/20220817221633-initial.sql:87-92 | unless the parent has none, each binding under the inheritance is one of the parent's with a new time stamp |
| `BindingTrigger.InheritAllAt` | schema/20220817221633-initial.sql:79-100 | when the loop succeeds, each inheritance whose parent is another row has left what it alone would leave, whatever the others did, and nothing else is touched; `BindingUpserts` says what that is |
| `BindingTrigger.InheritAllSome` | schema/20220817221633-initial.sql:79-100 | when no row is its own parent the loop fails exactly when one of its inheritances alone would fail |
| `BindingTrigger.TriggerOrderFree` | schema/20220817221633-initial.sql:79-83 | the loop's query has no ORDER BY; when no row is its own parent the order makes no difference |
| `BindingExamples.OrderMattersForOwnParent` | schema/20220817221633-initial.sql:79-83 | a run to a state in which the order decides what a row ends with, because the row is its own parent under one inheritance |
| `BindingUpserts.UpsertLeaves` | schema/20220817221633-initial.sql:79-100 | an upsert that succeeds leaves every binding of other rows, the row's own, and those under an inheritance for which the parent query gives no row |
| `BindingUpserts.UpsertRefs` | schema/20220817221633-initial.sql:86-97 | under an inheritance from another row: if that row has no bindings the refs stay; otherwise the row ends with that row's refs, those it lacked for sure, and one it had for sure only if the other row has no other |
| `BindingUpserts.UpsertGrants` | schema/20220817221633-initial.sql:87-92 | a binding that comes under it has the role and principal of the other row's with that ref, one that was there keeps its own, and both get the new time stamp |
| `BindingUpserts.UpsertSucceedsIff` | schema/20220817221633-initial.sql:79-100 | when no row is its own parent an upsert fails exactly when for some inheritance the source table has no access control, its query gives several rows or the parent has a ref twice, and then changes nothing |
| `BindingUpserts.GoesIff` | src/lib/query/proxy-command.cpp:89-107 | apart from upserts a binding goes exactly with its row, with its inheritance, or by an UNBIND that chooses its ref; all others stay as they are |
| `BindingUpserts.ComesIff` | src/lib/query/proxy-command.cpp:363-370 | apart from upserts a binding comes exactly by a BIND on a row that is there, of a role that is there, in a table with access control, under the ref drawn for it |
| `BindingUpserts.CatalogueKept` | schema/20220817221633-initial.sql:40-58 | access control stays on, a role in use is never dropped, inheritances stay distinct, get new ids and go with all their bindings |
| `AccessControl.Tables.BindAccessRole` | src/lib/query/proxy-command.cpp:363-370 | the tables after BIND, its failures and the sequence value they use up included |
| `AccessControl.Tables.UnbindAccessRole` | src/lib/query/proxy-command.cpp:407-430 | the tables after UNBIND, with the cascade |
| `AccessControl.Tables.SetAccessBindings` | schema/20220817221633-initial.sql:75-104 | the loop over the inheritances leaves what the recursive specification says, or fails and changes nothing; `BindingUpserts` says of that specification what becomes of each binding |
| `AccessControl.Tables.UpsertRow` | src/lib/query/proxy-command.cpp:104-107 | the tables after an insert or update that fires the trigger are those of the statement that `BindingUpserts` describes binding by binding; if the trigger fails nothing changes |
| `AccessControl.Tables.Delete` | src/lib/query/proxy-command.cpp:98 | a deleted row takes its bindings with it and leaves their refs |
| `BindingsView.PermittedIffBound` | src/lib/query/proxy-command.cpp:109-112 | a row is permitted exactly when it has a binding, its own or inherited, of the current user to a role with a SELECT permission on the table |
| `BindingsView.ShownWasBound` | src/lib/query/proxy-command.cpp:363-370 | on every run a row shown to a user is there by one successful BIND, to that user and of a role with SELECT on the table, made on the row or on one from which upserts of the run, each with the previous row as its parent, lead to it |
| `BindingsView.RewrittenShowsBound` | src/lib/query/query-acler.cpp:66-102 | end to end for one table: every row the rewritten FROM item shows is a row of the table, has an id, and was granted to the current user in this way |
| `BindingsView.UnbindHides` | src/lib/query/proxy-command.cpp:407-430 | after UNBIND the row is shown to the principal exactly when a binding with a ref not chosen by the UNBIND still shows it |
| `Session.Session.TakeAction` | src/lib/state-machine/include/state-machine/state-machine.h:53-65 | one action takes the session's fields and both buffers to the specified next state and event; a terminated machine does nothing; no receive finds a hand-written buffer |
| `Session.Session.constructor` | src/lib/session/session.cpp:5-44 | a new session starts at the first state with untouched buffers |
| `Session.NextKeeps` | src/lib/session/session.cpp:127-317 | every action keeps: waiting exactly in the four I/O states for the socket and direction of the next action, and after termination; buffers untouched, received or hand-written as the state says; once initiated, always |
| `Session.GateOpensIff` | src/lib/session/session.cpp:157-187 | a request passes the plugins if and only if each of them passed it |
| `PluginGate.PassedWithLast` | src/lib/session/session.cpp:157-187 | the request goes on with a query exactly when all plugins pass and it is the last one any of them set, and as received exactly when all pass and none set any |
| `PluginGate.RefusedByFirst` | src/lib/session/session.cpp:157-187 | it is refused with an error exactly when that is what the first plugin that did not pass answers: its own error, or for an exception ERROR, XX000 and its text |
| `PluginGate.ThrownByFirst` | src/lib/session/session.cpp:260-282 | after a response only exceptions count, and of them the first |
| `Session.Session.DoInitiate` | src/lib/session/session.cpp:68-125 | the startup action; a message of at most eight bytes leaves the session uninitiated |
| `Session.Session.DoReceiveRequest` | src/lib/session/session.cpp:137-155 | the request action, ending the session when nothing was received or the receive failed |
| `Session.Session.DoApplyPreRequestPlugins` | src/lib/session/session.cpp:157-187 | the loop over the plugins leaves state, buffers and event as the specified action does; which query and which error that is, `PluginGate` says |
| `Session.Session.DoForwardRequest` | src/lib/session/session.cpp:199-214 | hands the held request to send, whether received or hand-written |
| `Session.Session.DoReceiveResponse` | src/lib/session/session.cpp:226-258 | appends what was received and moves on exactly when the readiness test says so |
| `Session.Session.DoApplyPostResponsePlugins` | src/lib/session/session.cpp:260-282 | errors of these plugins are ignored, an exception becomes the response |
| `Session.Session.DoForwardResponse` | src/lib/session/session.cpp:294-309 | hands the held response to send |
| `Session.Session.DoResetContext` | src/lib/session/include/session/session.h:107-112 | everything is as in a new session except that startup stays done |
| `Session.Session.Await` | src/lib/session/session.cpp:127-135 | a prepare action waits for one socket and direction |
| `SessionRuns.RunsAreCycles` | src/lib/session/session.cpp:68-317 | every run is a sequence of complete request cycles and the beginning of one more, up to one state, in which it may have ended, then one of the four I/O states; startup happens until it is done and never again; what a cycle forwards is what it received or the query its plugins passed on, and what it answers is what it received in this cycle or its error; `SessionTraffic` says which these are |
| `SessionRuns.ForwardedHasPassed` | src/lib/session/session.cpp:157-214 | a request forwarded after startup has passed every plugin: two actions before, each of them gave the verdict to pass |
| `SessionTraffic.ForwardedIs` | src/lib/session/session.cpp:137-214 | on every run what is sent to the server after startup is the message of the last query that a plugin set two actions before, or else exactly the bytes the client's socket delivered three actions before; during startup always those bytes |
| `SessionTraffic.AnsweredIs` | src/lib/session/session.cpp:157-309 | on every run what is sent to the client is the error of the first plugin that refused the request or threw, or exactly the bytes the server's socket delivered since the session prepared for this response |
| `SessionTraffic.StartupDoneIff` | src/lib/session/session.cpp:68-125 | startup is done exactly when an earlier startup action had a request of more than eight bytes |
| `SessionTraffic.EndsIff` | src/lib/session/session.cpp:137-309 | an action ends the session exactly when a receive failed or nothing is received, or a send took nothing |
| `SessionTraffic.CompleteIff` | src/lib/session/session.cpp:226-258 | a response is complete exactly when startup is not done, or it starts with an authentication message or ends with ReadyForQuery of status I, T or E |
| `SessionTraffic.ErrorIsComplete` | src/lib/conn/include/conn/response.h:80-90 | every error message the proxy composes passes that test |
| `SessionRuns.RunRecorded` | src/lib/session/session.cpp:68-317 | the same from any point inside a cycle |
| `SessionRuns.Advance` | src/lib/session/session.cpp:68-317 | each action extends the record of the current cycle by its own event and keeps the buffers at exactly what the cycle has received |
| `SessionRuns.NoManualReceive` | src/lib/conn/buffer.cpp:31-41 | no receive of any run finds its buffer hand-written, so the resize branch is never taken |
| `Scheduler.EveryRunSafe` | src/lib/session/session-operator.cpp:28-104 | in every interleaving no step touches a deleted session, adds a descriptor epoll has or removes another than was added; every live session has one owner; only terminated sessions are deleted, once |
| `Scheduler.StepSafe` | src/lib/session/session-operator.cpp:28-104 | every atomic step of a worker, the watcher or an arrival keeps that invariant |
| `Scheduler.ExactlyOnePlace` | src/lib/session/session-operator.cpp:28-104 | a live session is in exactly one of the queue, one worker's hand, epoll under one descriptor, or the watcher's hand |
| `Scheduler.ActionsAreWoken` | src/lib/session/session-operator.cpp:72-86 | no receive or forward action runs unless, since the session's previous action, the watcher took out of epoll the client's descriptor for reading before a request is received and for writing before a response is forwarded, the server's for writing before a request is forwarded and for reading before a response is received |
| `Scheduler.RightSocketWatched` | src/lib/session/session.cpp:127-292 | in every reachable state a descriptor in epoll is its session's client socket or server socket, as the registration says, and the one and the direction that the session's next action uses |
| `Scheduler.QueueIsFifo` | src/lib/session/session-operator.cpp:28-88 | whatever workers, watcher and arrivals do, a queued session moves up by one place with each pop and is not overtaken |
| `Scheduler.StepQueue` | src/lib/session/session-operator.cpp:28-88 | a pop hands the worker the front of the queue, and every other step only adds at its end |
| `Scheduler.RankFalls` | src/lib/session/session.cpp:68-317 | an action leaves the session waiting or one rank lower, ranks lying between 1 and 3 |
| `Scheduler.WorkDrains` | src/lib/session/session-operator.cpp:28-52 | without new events the workers take at most as many steps as the ranks of queued and held sessions allow |
| `Scheduler.DrainedSessionsWait` | src/lib/session/session-operator.cpp:43-50 | when the workers can do nothing more the queue is empty and every session left waits in epoll or is with the watcher |
| `SchedulerRuns.ScheduledIsRun` | src/lib/session/session-operator.cpp:28-52 | in every interleaving what is done to one session, until it is deleted, is a run of a new session on the inputs of its own actions, with the same events |
| `SchedulerRuns.ScheduledInCycles` | src/lib/session/session.cpp:68-317 | so the actions on every scheduled session form request cycles, the last perhaps cut short |
| `SchedulerRuns.ScheduledHasPassed` | src/lib/session/session.cpp:157-214 | and no request of one is forwarded after startup unless every plugin has passed it |
| `SchedulerRuns.ScheduledForwards` | src/lib/session/session.cpp:137-214 | what it forwards then is the message of the last query a plugin set, or the bytes its client sent |
| `SessionOperators.SessionOperator.Work` | src/lib/session/session-operator.cpp:28-52 | one call of Work is the steps pop, act and hand on, or pop and delete, or nothing, and keeps the invariant |
| `Scheduler.CollectFrom` | src/lib/session/session-operator.cpp:61-75 | the distinct descriptors that epoll reports belong to distinct sessions, none of them queued or in a hand |
| `SessionOperators.SessionOperator.Watch` | src/lib/session/session-operator.cpp:54-88 | one pass over any distinct registered descriptors takes exactly these out of epoll and puts their sessions in the queue, in order |
| `SessionOperators.SessionOperator.WakeOne` | src/lib/session/session-operator.cpp:72-86 | the body of that loop is the steps remove and requeue |
| `SessionOperators.SessionOperator.AddToWatch` | src/lib/session/session-operator.cpp:90-104 | registers the session's client socket or server socket, as its interest says, which epoll did not have |
| `Buffers.Buffer.RecvFrom` | src/lib/conn/buffer.cpp:29-74 | whatever chunks arrive, the buffer ends in the one state its bytes determine, holding exactly the bytes before and the chunks; the result is their number, or the failure |
| `Buffers.Buffer.Take` | src/lib/conn/buffer.cpp:45-72 | one receive and the doubling after it; the window given to recv lies inside the vector |
| `Buffers.Buffer.constructor` | src/lib/conn/buffer.cpp:7-12 | a fresh buffer is that state for no bytes |
| `Buffers.FilledFacts` | src/lib/conn/buffer.cpp:43-73 | in that state the vector is twice the window, the bytes are at most the window, and memory is 2048 or less than four times the bytes held |
| `Buffers.CapacityStep` | src/lib/conn/buffer.cpp:66-72 | one doubling is enough for whatever one receive delivers |
| `Buffers.ResizedFitsIff` | src/lib/conn/buffer.cpp:33-41 | the resize of a hand-written buffer gives a window inside the vector, and the state of received bytes, if and only if it holds at most 2048 bytes |
| `Buffers.Buffer.SetQuery` | src/lib/conn/include/conn/request.h:11-26 | the buffer holds exactly the query message, marked hand-written |
| `Buffers.Buffer.SetError` | src/lib/conn/include/conn/response.h:16-91 | the two field loops and the length patch leave exactly the message `Wire.EncodeError`, although the length is accumulated in 32 bits; `Wire.ErrorBytes` says what its bytes are |
| `Buffers.Buffer.SendTo` | src/lib/conn/buffer.cpp:76-82 | what is handed to send is the held bytes |
| `Wire.ErrorRoundTrip` | src/lib/session/print-info.cpp:32-55 | an error message has type E; reading it back gives C, M, S and V with the texts of C, M, S and S, then of F, L, P and R those that are there, each with its own text, and no more; it stops on the terminator at the value of the length field and leaves one ReadyForQuery of status I |
| `Wire.ErrorBytes` | src/lib/conn/include/conn/response.h:16-91 | the bytes of the message: big-endian length, then type, text and NUL of each field, the terminator and ReadyForQuery |
| `Wire.QueryRoundTrip` | src/lib/session/print-info.cpp:15-31 | a query message has type Q and a NUL at its end; reading it back gives its text and its big-endian length |
| `Wire.DecodeError` | src/lib/session/print-info.cpp:36-55 | the field loop computes the recursive decoder |
| `Wire.DecodeEncoded` | src/lib/session/print-info.cpp:42-54 | wherever the encoding of some fields stands in the data the field loop reads them back |
| `Wire.LengthOfBe32` | src/lib/conn/include/conn/response.h:75-78 | the four length bytes read back as the length modulo 2^32 |
| `Wire.WordWraps` | src/lib/conn/include/conn/response.h:47 | counting the length in 32 bits changes none of its four bytes |
| `Startup.ParseStaysInside` | src/lib/session/session.cpp:91-104 | however malformed the received bytes, the parser stops inside the vector |
| `Startup.ParseParameters` | src/lib/session/session.cpp:91-104 | the loop computes the recursive parser |
| `Startup.StartupRecovered` | src/lib/session/session.cpp:91-104 | from any well-formed message every name ends with its last value, and the database is the last one given anywhere, else the first user |
| `Startup.StoredValues` | src/lib/session/session.cpp:99-103 | the same for the stored pairs, in whatever order they come |
| `SharedDeque.TableIsDeque` | src/lib/persistent-deque/persistent-deque.cpp:10-19 | no run of any clients can tell the table from a shared deque: all replies agree, and sorted by position the rows are the deque |
| `SharedDeque.StepShows` | src/lib/persistent-deque/persistent-deque.cpp:30-220 | each step on the table is the same step on the deque |
| `SharedDeque.FreeShows` | src/lib/persistent-deque/persistent-deque.cpp:116-119 | the outermost row nobody has locked is the outermost element nobody holds |
| `SharedDeque.OrderKept` | src/lib/persistent-deque/persistent-deque.cpp:289-346 | holding and letting go never move an element; a push adds at its end; a pop takes out the held element alone |
| `SharedDeque.HoldThenRelease` | src/lib/persistent-deque/persistent-deque.cpp:339-346 | holding an element and releasing it leaves the deque as it was |
| `DequeTable.EveryRunConserved` | src/lib/persistent-deque/persistent-deque.cpp:110-346 | on every run an element is held by one client at most and popped at most once, and the pushed elements are exactly the popped and the stored ones |
| `DequeTable.StepConserved` | src/lib/persistent-deque/persistent-deque.cpp:289-337 | each step keeps that |
| `DequeTable.StepGood` | src/lib/persistent-deque/persistent-deque.cpp:12-19 | positions stay within the sequence and are never zero, locked rows exist and have one lock |
| `DequeTable.PushBeyond` | src/lib/persistent-deque/persistent-deque.cpp:35-36 | a back push lands behind every position, a front push before every one |
| `DequeTable.RowsStay` | src/lib/persistent-deque/persistent-deque.cpp:289-325 | only a pop by the client that holds it takes a row away |
| `PersistentDeque.PersistentDeque.Push` | src/lib/persistent-deque/persistent-deque.cpp:30-108 | a push by a client, its failures included |
| `PersistentDeque.PersistentDeque.Take` | src/lib/persistent-deque/persistent-deque.cpp:110-220 | Back and Front, with or without popping; the element returned is the lock on its row |
| `PersistentDeque.Element.Pop` | src/lib/persistent-deque/persistent-deque.cpp:289-337 | deletes and commits once; without an open transaction it fails and changes nothing |
| `PersistentDeque.Element.Release` | src/lib/persistent-deque/persistent-deque.cpp:339-346 | ends an open transaction without effect on the rows |
| `ConnPool.CheckNeverFails` | src/lib/conn/pqxx-conn.cpp:54-62 | in every interleaving idle, used and being-released connections are the pool's size, so the unguarded check never fails, even on an outdated size |
| `ConnPool.StepBalanced` | src/lib/conn/pqxx-conn.cpp:19-62 | each step keeps that balance and no connection is in two places |
| `ConnPool.BlockingQueue.Pop` | src/lib/concurrency/include/concurrency/blocking-queue.h:36-54 | takes the front of the first non-empty queue it wakes to, or gives up when the time runs out, whatever the queue holds then |
| `ConnPool.BlockingQueue.Push` | src/lib/concurrency/include/concurrency/blocking-queue.h:17-24 | adds at the end |
| `ConnPool.PqxxConnPool.constructor` | src/lib/conn/pqxx-conn.cpp:27-38 | the loop fills the queue with as many new connections as the pool's size |
| `ConnPool.PqxxConnPool.Acquire` | src/lib/conn/pqxx-conn.cpp:44-52 | the front connection of the first queue that has one, or none when the time is up, even if one has come back just then |
| `ConnPool.PqxxConnPool.Release` | src/lib/conn/pqxx-conn.cpp:54-62 | with nobody in between it is the check and the renewal of the interleaved model |

## Left out

- QueryAcler.QueryAcler.AclQuery: when the walk throws, the source leaves the tree of the abandoned query partly rewritten; here it stays as it was.
- The three procedures return the new node instead of overwriting it through a reference; the loops over fields and items do overwrite.
- Escaping in the template: table and alias names are inserted as they are.
- The parser and deparser around the rewrite; the lookup of tracked names in the schema tracker. Idempotence of the rewrite is not claimed: a second pass wraps the same table again.
- SqlAcl.QuerySame: not for INTERSECT ALL and EXCEPT ALL, aggregates, GROUP BY, SELECT DISTINCT, ORDER BY, LIMIT, LATERAL, common table expressions, `*` targets, unqualified columns, or sub-queries in WHERE, targets or ON conditions. In WHERE and targets the source inserts nothing; sub-queries in ON it rewrites, and the typed fragment has none.
- SqlBags.FromsMultiplied: for FROM lists of tables and inner joins only; how often a row of an outer join occurs is not a product. When nothing is granted twice, SqlExact covers all of them.
- Access rows are compared with the current user only; columns of a permission and the operation ALL are stored but have no effect in the source either.
- Bindings: an UPDATE that changes a row's id, the query texts of inheritances (what they select is a parameter), propagation of a new binding to rows that already inherit (the source has none), the permission and role tables beyond what the view joins, and the text matching that recognises the commands.
- Concurrent transactions on the binding tables: each statement is one step.
- Sockets, partial sends, and what epoll does beyond keeping a map from descriptors to sessions and reporting some of them.
- Session.Session.DoApplyPreRequestPlugins: an error of a plugin must carry S, C and M, as an assertion in the source demands; some command errors lack C and abort the process.
- Buffers.Buffer.RecvFrom: not for a hand-written buffer of more than 2048 bytes, where recv would be given a window outside the vector; no run of a session gets there.
- Wire.DecodeError: not for a message whose text runs off the data, where the source reads on past its buffer.
- Session.Session.DoReceiveResponse: for fewer than six bytes the readiness test reads before the data; its answer there is a parameter.
- Session.Session.DoInitiate: the lookup of the superuser flag on a pool connection, which may be null or throw.
- Plugin bodies: a plugin may set a query, then pass, refuse or throw; updates to the parameters by plugins are not followed.
- Scheduler.EveryRunSafe: sessions are values in the shared state rather than objects, and the number of a deleted session is not given to a new one.
- SessionOperators.SessionOperator.Work: runs without other threads in between; with them in between it is the steps that Scheduler interleaves.
- Shutdown of pools and threads, connection failures, logging and the server's accept loop.
- ConnPool.PqxxConnPool.Acquire: what other threads leave in the queue while it waits is a parameter; waiting without a time limit is a longer list of wake-ups.
- PersistentDeque.PersistentDeque.Push: each push is one step, so a sequence value drawn before but committed after another is not modelled; 64-bit overflow of positions is not modelled.
- PersistentDeque.Element.Pop: a DELETE or commit that the database refuses is not modelled.
- PersistentDeque.PersistentDeque.Take: with pop, likewise.
- SqlReader.ReadQuery: reads over keys it does not know, such as an ORDER BY; nothing is claimed of trees with such keys.
- BindingUpserts.UpsertRefs: not for an inheritance under which the row is its own parent; what it leaves then depends on the order of the inheritances.
- BindingTrigger.InheritAllSome: for a row that is its own parent, whether the loop fails depends on the order of the inheritances and is not characterised.
- The thread pool and the table-creation plugins.
