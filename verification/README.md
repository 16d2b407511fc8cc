# Sooth, modelled in Dafny

Sooth is a compiler for a linear stack language. This project models five of its cores and proves what each is for.

**The on-demand monomorphiser.** `GenericTypes` mints an id, then a memo key, then a fieldless placeholder, and only
then substitutes a header's fields, so self-referential and permuting headers re-enter it while it runs. Headers that
are still being registered defer their field lists; flush and rebase move staged declarations onto the live registry
under ids already handed out. `Worlds` holds the state as a value and the read-only specification: `Denote` reads a
type over a signature's variables by looking every application up by key. `Readback` meets it from the other end: what
a handle says when it is read entry by entry, and that the two agree. `Invariant` is what every legal history keeps,
`Steps`, `Filling` and `History` prove that each move keeps it, `Universe` bounds the keys a header can reach
(termination), `Instantiator` is the imperative code against that specification, `Histories` every run of its
operations in any legal order, `Pipeline` the rebase/mint/flush brackets of the driver and the checker. `Expansion`
unfolds a handle to a symbolic type down to nominal ids and shows that handles, histories and interning orders cannot
be told apart by it; `Interning` is the arbitrary interleaving of interning calls. `Substitution` and `Members` are
the two purely symbolic substitutions and their commutation with grounding.

**The alpha-renamer of the splicing inliner.** `Rename` is the walk with its mutable scope; `Scoping` gives the terms
their de Bruijn form and two interpreters, and says exactly when renaming keeps the meaning; `Splicing` runs a renamed
body under the caller's own bindings.

**Borrow provenance in the checker.** `Borrow` is what a derivation records and exactly when borrowing through a
local, a call or a join keeps it; `BorrowJoin` the N-arm eliminator join; `BorrowSteps` the steps: borrows, named and
bound locals, projections, shuffles, calls and stores through an exclusive reference; `BorrowRuns` every run of them
and of eliminators whose arms are runs themselves; `BorrowRoots` exactly when a place stays the root of all that
reaches it; `BorrowWalk` the imperative walk, each method against the step it takes; `BorrowLaws` what the scans make
of the records; `MoveStates` the join of the linear locals' states and `Linearity` what they promise along every path.
Every value on the stack and in scope carries, as ghost state, the frame places it may reach: a reference to a local
reaches the local and all that the value there reaches, and after a store so does every value that reaches the local
stored into. `BorrowLimits` and `BorrowStores` hold runs on which a place drops out of the records.

**The import closure and package audit.** `Walks` is reachability along an edge relation, `Closure` the discovery
worklist, `Cycles` the three-colour search, `Intrinsics` the memoised visibility fold, `Packages` the layer audit.

**The lexer.** `Lexer` is the scanner as a function of the text, `Scanner` its loop over a cursor, `Spellings` how
each token is written, apart from how it is read, `LexerLaws` what lexing promises.

Conventions. The struct and the enum side of the monomorphiser are line-for-line twins, so one member takes an
`isEnum` flag; a struct header is a header with one variant. Registry handles, ids and header indices are numbers; an
error is a constructor. A ghost parameter such as `files` or `paths` is a finite set that bounds what can be met; it
is what makes a worklist end and is not computed.

What turned out to hold only under a guard:

- Destructuring a generic enum symbolically commutes with grounding exactly when the field's application heads
  and length arguments read the same in both signatures (`Substitution.AgreementIsAlignment`). A field with
  neither always does. `Substitution.HeadIsNotSubstituted` and `Substitution.LengthIsNotSubstituted` are two
  legal histories where it does not.
- Alpha-renaming keeps a body's meaning exactly when no free call is spelled like a renamed local or like a name
  of the caller the body is spliced under (`Scoping.RenamingPreserves`). The separator keeps the first half true
  by convention only: `Scoping.SpellingCanCapture`.
- "A value that may view a frame place has it as its owned root": one step keeps this for a place if and only if it
  is no borrow of that place while it holds something rooted elsewhere, and no store after which a value that comes
  to reach the place is rooted elsewhere or the container has no root (`BorrowRoots.StepKeepsRootExactly`). It holds
  all along a run, inside the arms too, if and only if every step meets that and no arm that ran moved the root of
  one of the caller's locals that reaches the place (`BorrowRoots.RunKeepsRootExactly`). The record of a borrow keeps
  the root the local already held, and the local itself stays in its `place` field: `BorrowLimits.BorrowLosesRoot`.
  An arm is checked in a copy of the scope, so what its stores book goes with it: `BorrowStores.StoreInArmLosesRoot`.
- The scans look for a place in the root and in the `place` field. A record taken through a local names all the
  held one did exactly when the held one was taken from that local or from its own root
  (`Borrow.ThroughKeepsExactly`); what a call hands on does exactly when every bearing operand was taken from the
  carried derivation's place or from its root (`Borrow.CallKeepsExactly`), a joined position exactly when every arm's
  derivation was (`Borrow.JoinKeepsExactly`). Runs that meet these guards hide nothing from the scans
  (`BorrowRuns.NamesAreRecorded`, `BorrowRuns.CleanScanIsRight`). `BorrowLimits.NamingLosesPlace`,
  `BorrowLimits.CallLosesPlace`, `BorrowLimits.JoinLosesPlace` and `BorrowStores.StoreLosesPlace` are accepted runs
  that do not meet them, and on which a value still reaches a place its record no longer names. The comment on
  `src/check.rs:3206-3207` calls the choice of the first operand's derivation unobservable; it is so for the root.

## Model

| member | source | states |
|---|---|---|
| Instantiator.GenericTypes.WithBases | src/ast.rs:1047-1064 | A new registry is empty and counts its ids from the two given lengths. |
| Instantiator.GenericTypes.LookupKey | src/ast.rs:1124-1150 | The memo answers exactly `Lookup`: the resolved type at the key's first and only position, or nothing. |
| Instantiator.GenericTypes.MintKey | src/ast.rs:1379-1411 | The four pushes of a first mint stay in lockstep; the id counts from base plus staged length, and a pending header owes its field list. |
| Instantiator.GenericTypes.SubstituteField | src/ast.rs:884-1040 | Grounding a field leaves a registry state in which the read-only denotation of that field is the type returned, and that type, read from its handle, is the field: a buffer's entry has the length at its variable's own position. Keys, ids and declarations minted before are untouched. |
| Readback.DenotesWhatReads | src/ast.rs:884-1040 | Searching the registries by contents and reading a handle by its index meet: in every legal world a field denotes a type if and only if that type reads as the field. |
| Readback.ReadsLengths | src/ast.rs:905-963 | A buffer's count is the length in its variable's place, and the key of an application carries each length in the place where the field spells its variable. |
| Readback.FieldReads | src/ast.rs:1280-1328 | Every field of every declaration that is due reads as its header spells it, at the key's own arguments and lengths. |
| Readback.BufferIsAsLong | src/ast.rs:911-918 | A minted declaration's buffer whose length is a variable is as long as the key's argument in that variable's place. |
| Instantiator.GenericTypes.SubstitutedBody | src/ast.rs:1280-1328 | The field lists returned are the denotation of every declared field, in the final registry, even when substituting them re-enters this header. |
| Instantiator.GenericTypes.InstantiateIn | src/ast.rs:1368-1462 | In the middle of any nest of mints: only the keys on the active chain are fieldless, the answer is memoised under its key, a memo hit changes nothing, and the recursion ends because unminted keys of a finite closed universe run out. |
| Instantiator.GenericTypes.Instantiate | src/ast.rs:1368-1462 | On return every memoised key with a complete header has exactly its denoted field lists, nothing is left open, no earlier id moved, and the answer is the key's type. Terminates for every set of non-growing headers. |
| Instantiator.GenericTypes.GroundVarFree | src/ast.rs:1191-1197 | A variable-free shape nested to any depth grounds to its denotation, and the type returned reads as the shape; the invariant of all histories is kept. |
| Instantiator.GenericTypes.PushHeader | src/ast.rs:1199-1205 | A complete header becomes the last one, as it is passed; no monomorph is disturbed. |
| Instantiator.GenericTypes.PushPlaceholder | src/ast.rs:1199-1212 | A pending header is registered with no fields; every earlier id keeps its declaration. |
| Instantiator.GenericTypes.Fill | src/ast.rs:1218-1267 | The header holds exactly the fields passed in and is no longer pending, every other header is as it was, and every monomorph of it, deferred or minted while paying off, has those fields grounded at its own arguments, in place and under the same id. |
| Instantiator.GenericTypes.Flush | src/ast.rs:1084-1092 | Staged declarations move onto the live registry; every id still names its own declaration. |
| Instantiator.GenericTypes.Rebase | src/ast.rs:1075-1078 | Re-pointing the bases after a flush makes the next mint's id fresh and moves no earlier one. |
| Instantiator.GenericTypes.StagedDecl | src/ast.rs:1100-1114 | A staged lookup answers exactly for the ids of the unflushed batch, with that key's own declaration, also between a flush and its rebase. |
| Instantiator.GenericTypes.KeyOf | src/ast.rs:1165-1182 | The reverse lookup: the key an id was minted from, or nothing for a hand-written declaration. |
| Instantiator.Registries.InternArray | src/ast.rs:1701-1717 | Two equal shapes get one handle; the registry only grows and stays duplicate-free. |
| Instantiator.Registries.InternCell | src/ast.rs:1560-1572 | As for arrays, for owning cells. |
| Instantiator.Registries.InternRef | src/ast.rs:1604-1620 | As for arrays, for references; mutability is part of the shape. |
| Instantiator.Registries.InternSlice | src/ast.rs:1656-1676 | As for arrays, for slices. |
| Steps.MintKeeps | src/ast.rs:1376-1404 | A mint keeps the invariant with its own key open: keys and ids stay pairwise distinct and in lockstep. |
| Steps.SetBodyKeeps | src/ast.rs:1412-1418 | Overwriting the placeholder's field lists with their denotation closes the key and disturbs no other. |
| Universe.UniverseClosed | src/ast.rs:936-963 | With non-growing applications the finite set of keys built from a header's occurrences is closed under everything its fields can apply: why instantiation, permuting self-reference included, ends. |
| Filling.FillStart | src/ast.rs:1224-1236 | Right after a fill's state update, exactly the deferred monomorphs of that header are open. |
| History.PushKeeps | src/ast.rs:1199-1212 | Registering a header is a legal move in every history. |
| History.FlushKeeps | src/ast.rs:1084-1092 | Flushing with no header pending is a legal move in every history. |
| History.LiveKeeps | src/driver.rs:792-804 | Rebasing, and hand-written declarations added between batches, keep the invariant and every id. |
| History.FreshIsLegal | src/ast.rs:1047-1064 | Every history starts legal. |
| History.NothingOwed | src/ast.rs:1218-1267 | Once no header is pending, no field list is owed and no monomorph is waiting. |
| History.EvolvesTrans | src/ast.rs:1075-1092 | Over any run of moves no id is re-pointed: declarations of complete headers persist and new ids lie beyond the old live registry. |
| History.LookupsInverse | src/ast.rs:1124-1182 | In every legal history lookup by key and lookup by id are inverse to each other. |
| History.IdsAreInjective | src/ast.rs:1382-1404 | Two applications with one id are the same application. |
| Expansion.EqualityIsExpansionEquality | src/ast.rs:1560-1717 | Two handles are equal exactly when their full expansions down to nominal ids are, across registries that refer to each other. |
| Expansion.MeansStays | src/ast.rs:1075-1082 | A handle keeps its expansion through every later move. |
| Expansion.DenoteMeans | src/ast.rs:884-1040 | Grounding by lookup and substituting symbolically give the same expansion. |
| Expansion.FieldsMean | src/ast.rs:1280-1328 | A minted declaration's fields expand to its header's fields with the expanded arguments substituted in. |
| Expansion.HistoriesAgree | src/ast.rs:1199-1267 | Deferral is invisible: any two legal histories holding the same header give a key the same expanded field types, whether it was minted before or after the header was filled. |
| Interning.InternAll | src/ast.rs:1560-1717 | After any interleaving of array, cell, reference and slice interning, registries have only grown, shapes are distinct, and two results are one handle exactly when their expansions are one. |
| Histories.Perform | src/ast.rs:1047-1462 | Any one legal operation, from any state, keeps the invariant, every id, every complete header and every written field list; it changes the headers as it says and no other way, and its answer holds. |
| Histories.Play | src/driver.rs:792-804 | Any sequence of operations is run up to the first illegal one. At the end each application has its one type and id, each grounded shape reads as it was spelled, the applications of each header have the fields which the run itself registered it or filled it with, and every new complete header got its fields from an operation of the run. |
| Histories.UsedBeforeDefined | src/ast.rs:1199-1267 | A header reserved, applied at a type, and only then filled with one field of its variable: the declaration flushed under the id handed out holds that type. |
| Pipeline.CheckBody | src/check.rs:1073-1095 | One rebase, mint, flush bracket: every requested type is its denotation and still is after the flush. |
| Pipeline.CheckModule | src/check.rs:935-945 | Over any sequence of brackets every type handed out in any of them still denotes its request at the end. |
| Substitution.SubstComposes | src/ast.rs:2822-2878 | Substituting twice is substituting once by the substituted arguments. |
| Substitution.SubstCommutes | src/ast.rs:2822-2878 | Destructuring symbolically and grounding afterwards is grounding first and reading the field, for every aligned field. |
| Substitution.PlainAligned | src/ast.rs:2822-2878 | A field without applications and length variables is always aligned. |
| Substitution.AgreementIsAlignment | src/ast.rs:2833-2871 | Where both routes succeed they agree if and only if the field is aligned: heads and length arguments read the same in both signatures. |
| Substitution.ArmFieldIsDeclField | src/ast.rs:2822-2878 | An aligned arm field grounds to the field the minted enum's own declaration holds. |
| Substitution.HeadIsNotSubstituted | src/ast.rs:2826-2839 | A legal world of headers without phantom variables, the scrutinee's own enum among them: the unsubstituted head grounds the arm's field to another monomorph than the minted enum declares. |
| Substitution.LengthIsNotSubstituted | src/ast.rs:2856-2873 | A legal world of headers without phantom variables, the scrutinee's own enum among them: the unsubstituted length grounds the arm's field to another monomorph than the minted enum declares. |
| Members.GroundFailsExactly | src/ast.rs:2356-2481 | Grounding fails exactly when some reachable application of the trait's own variable meets no constructor or too few slots; the error carries the first such application's argument count. |
| Members.OffendingIsFirst | src/ast.rs:2436-2457 | The count reported is the first in the signature, in walking order, that does not dissolve. |
| Members.FailsAtFirstOffence | src/ast.rs:2422-2457 | Grounding fails if and only if the signature mentions an application of the trait's variable that the target has no room for; the error is that of the first one in reading order, with its own number of arguments. |
| Members.GroundCommutes | src/ast.rs:2356-2481 | Instantiating a grounded signature is grounding the signature against the instantiated target. |
| Members.GroundedMeaning | src/ast.rs:2356-2481 | A grounded signature read at any instance is the member evaluated with its header bound to that instance of the target, an n-ary application replacing the n leading slots. |
| Rename.SpellingInjective | src/ast.rs:3745-3752 | Name, suffix and uid can be read back from a renamed spelling. |
| Rename.RenameTerms | src/ast.rs:3789-3826 | The walk over its growing and finally truncated scope computes the renaming: a bind renames from there to the end of its block, a quotation inherits by copy, a call is renamed behind its sigil. |
| Rename.AlphaRenameLocals | src/ast.rs:3725-3728 | An inline splice renames under its own suffix from an empty scope; it binds no name that any member splice binds, at whatever uids, nor any other inline splice at another uid. |
| Rename.AlphaRenameMemberLocals | src/ast.rs:3740-3743 | A member splice renames under the other suffix; it binds no name that any inline splice binds, at whatever uids. |
| Rename.FlavoursBindApart | src/ast.rs:3730-3767 | What an inline splice and a member splice bind never meets, for all bodies and uids. |
| Rename.UsesAreRenamed | src/ast.rs:3769-3787 | A bound local is renamed plain, behind `&` and behind `&!`, and nothing else is. |
| Rename.SplicesBindApart | src/ast.rs:3730-3752 | Two splices under distinct uids, or an inline and a member splice under one uid, bind no name in common. |
| Scoping.RenamingPreserves | src/ast.rs:3725-3826 | A body and its renaming have the same de Bruijn form, sigils and annotations included, exactly when no free call is captured. |
| Scoping.SpellingCanCapture | src/ast.rs:3730-3752 | A body whose free word is spelled like a renamed local changes meaning. |
| Scoping.CallerUnaffected | src/ast.rs:3730-3752 | Binders spliced into the caller's scope change none of its resolutions, when the caller spells none of them. |
| Scoping.RunIsNameless | src/ast.rs:3725-3826 | Running with names, closures and by-value inherited scopes is running the de Bruijn form. |
| Scoping.RenamedRunsTheSame | src/ast.rs:3725-3826 | From environments related by the renaming a body and its renaming reach the same outcome at every step budget. |
| Splicing.RunBeneath | src/ast.rs:3730-3743 | A block scoped to its own bindings runs alike over any deeper scope, up to what lies beneath the scopes of closures. |
| Splicing.SpliceRunsTheSame | src/ast.rs:3725-3826 | A renamed body run under the caller's bindings has the outcome of the body alone at every step budget. |
| Splicing.BeneathPlain | src/ast.rs:3725-3826 | On results without closures that likeness is equality. |
| Borrow.ThroughKeepsExactly | src/check/engine.rs:373-429 | A record taken through a local names all the held one named if and only if the held one was taken from that local or from its own root. |
| Borrow.CallKeepsExactly | src/check.rs:3204-3256 | What a call carries names all its bearing operands named if and only if each was taken from the carried derivation's place or root. |
| Borrow.JoinKeepsExactly | src/check.rs:2755-2782 | A joined position names all its arms named if and only if each arm's derivation was taken from the joined one's place or root; which one is kept depends on the written order. |
| Borrow.ExclusiveJoinKeeps | src/check/engine.rs:85-97 | Exclusive reborrows and fresh borrows always meet that guard: only shared reborrows through different locals do not. |
| Borrow.CarriedIs | src/check.rs:3208-3256 | The derivation carried is a function of the operands: the first rooted bearing one, else the first of all. |
| Borrow.CallRecorded | src/check.rs:3208-3265 | A call keeps every place its operands could view recorded: roots always, names under the guard. |
| Borrow.JoinKeepsRoots | src/check.rs:2755-2782 | A joinable position has one root in all arms, and the joined slot keeps it. |
| Borrow.ShuffleEffects | src/check.rs:3385-3505 | `dup`, `drop`, `swap`, `over` and `rot` have their stack effects over any stack, need what they name, and no other word shuffles. |
| BorrowJoin.ArmExitRowMismatch | src/check.rs:2733-2747 | Two arms agree exactly when their exit rows have the same types; otherwise the pair is reported, baseline first. |
| BorrowSteps.MoveRecorded | src/check/terms.rs:148-590 | Every step, stores included, that meets its guard keeps the records: for roots the guard of each place followed, for names that of the scans. |
| BorrowSteps.StepRecorded | src/check/engine.rs:387-429 | Whatever a step does, the roots it can take away are those of the borrowed place and of places a store touches. |
| BorrowRoots.StepKeepsRootExactly | src/check/engine.rs:387-429 | A step from a state where everything that reaches a place is rooted at it leads to such a state if and only if it is no borrow of the place while it holds something rooted elsewhere and no store that lets the place be reached under another root. |
| BorrowRoots.RunKeepsRootExactly | src/check.rs:3191-3203 | In all states of a run and of its arms everything that reaches a place is rooted at it, if and only if every borrow of the place, every store and every arm that ran meets its guard. |
| BorrowRuns.RootsAreRecorded | src/check.rs:3191-3203 | In every run that meets those guards for a place, whatever else its arms do and whichever ran, a value that may reach the place has it as its owned root. |
| BorrowRuns.NamesAreRecorded | src/check/engine.rs:1016-1036 | In every run that meets the guards, whatever may reach a place names it as root or as place. |
| BorrowRuns.CleanScanIsRight | src/check/engine.rs:985-1036 | In such a run a scan that finds nothing for a place is right: nothing on the stack and no live local reaches it. |
| BorrowRuns.CleanExclusiveScanIsRight | src/check/engine.rs:1038-1054 | In such a run an exclusive scan that finds nothing is right as well: what reaches the place only shares it. |
| BorrowLimits.BorrowLosesRoot | src/check/engine.rs:387-407 | A run from an empty stack: a reference to a local holding a view of an array reaches the local and is rooted at the array. |
| BorrowLimits.NamingLosesPlace | src/check/terms.rs:239-249 | A run from an empty stack: a reference to a view-holding local, bound and named, reaches the local and no longer names it; no scan finds the local once the binding is dead, whatever else is live. |
| BorrowLimits.CallLosesPlace | src/check.rs:3204-3256 | A run: of references to two windows over one array, a call hands on one whose window the record does not name; no scan finds it, whatever is live. |
| BorrowLimits.JoinLosesPlace | src/check.rs:2755-2782 | A run: arms leaving references to the two windows are joined, and the second one's window is named by nothing, whatever is live. |
| BorrowStores.StoreLosesPlace | src/check/terms.rs:563-585 | A run: a store through a named exclusive reference rewrites the reference's own record, and the local behind it is named by nothing, whatever is live. |
| BorrowStores.StoreInArmLosesRoot | src/check.rs:2635-2721 | A run: a view stored inside an arm is booked in the arm's copy of the scope; after the call the caller's local reaches the array and its record has no root. |
| BorrowLaws.BorrowRecordsAll | src/check/engine.rs:387-429 | Everything a borrow records: place, mutability, and the root and static mark, inherited if the local held anything. |
| BorrowLaws.SecondBorrow | src/check/word_families.rs:214-286 | While a borrow is on the stack the scan of a second one of the place finds it if and only if one of the two is exclusive. |
| BorrowLaws.NamingSuspends | src/check/terms.rs:239-249 | Naming an exclusive reference suspends it for as long as the reborrow is on the stack. |
| BorrowLaws.NamingKeepsRoot | src/check/engine.rs:411-429 | A reborrow has the root and static mark of what the reference held. |
| BorrowLaws.ProjectionLends | src/check/engine.rs:431-438 | A projection lends what its receiver did and suspends what it suspended. |
| BorrowLaws.BindThenName | src/check/terms.rs:148-310 | Binding a value and naming it gives it back: type, provenance, quotation, captures and reach. |
| BorrowLaws.CallHandsOn | src/check.rs:3208-3265 | A bearing output denotes exactly the regions of the bearing operands, an output that can hold a closure captures exactly what the operands do, other outputs nothing. |
| BorrowLaws.JoinUnites | src/check.rs:2755-2811 | A joined value denotes and captures exactly what any arm's value does in its place. |
| BorrowLaws.ShufflesConserve | src/check.rs:3385-3505 | No accepted shuffle makes a second value of a type that is not copied; only `drop` takes one away. |
| BorrowWalk.Walker.InternAliasSet | src/check/engine.rs:230-238 | Equal region sets share one id and the table stays duplicate-free. |
| BorrowWalk.Walker.AliasUnion | src/check/engine.rs:250-254 | The id of the union of two region sets; existing sets are untouched. |
| BorrowWalk.Walker.UnionSurviving | src/check/engine.rs:336-367 | The union of two surviving capture sets, with no id when it is empty. |
| BorrowWalk.Walker.Scan | src/check/engine.rs:985-1057 | The scan finds a place exactly when some live record, of a value on the stack or of a local not yet dead, has it as root or place, and is exclusive if asked. |
| BorrowWalk.Walker.Reborrow | src/check/engine.rs:411-429 | A new chain through the local, with the held chain's root. |
| BorrowWalk.Walker.Borrow | src/check/engine.rs:387-407 | A fresh chain rooted at the place, or a reborrow when the local holds one. |
| BorrowWalk.Walker.BorrowPlace | src/check/word_families.rs:214-286 | Refused exactly when the local was consumed or the scan finds a conflicting record; otherwise the value reaches the place and all that the value there reaches. |
| BorrowWalk.Walker.NameLocal | src/check/terms.rs:222-313 | A value is read exactly when no borrow of it is live (if it is linear), it was not consumed, and no exclusive borrow of it is live (if it has regions); each refusal is that of the first check that fails. An exclusive reference is named exactly when no live reborrow was taken through it. What is named reaches what the local's value does, and a linear value is consumed. |
| BorrowWalk.Walker.BindLocals | src/check/terms.rs:148-184 | Accepted exactly when the names are new and distinct and the stack is deep enough; every value keeps its provenance, every aggregate gets a region, and exactly the linear values become live. |
| BorrowWalk.Walker.LeaveScope | src/check/engine.rs:593-609 | The names of the block leave with their states; one still holding a linear value is reported if there is any, and if none is, each linear local of the block was read exactly once on every path. |
| BorrowWalk.LocalsAreReadOnce | src/check/engine.rs:455-475 | Wherever a walk has led, no path through the arms that ran reads a linear local twice between its bind and the end of its scope. |
| Linearity.ReadAtMostOnce | src/check/engine.rs:459-475 | The same for every trail of move-states that the checks accept, branches within branches. |
| Linearity.ConsumedIsReadOnce | src/check/engine.rs:477-522 | Along such a trail a local that counts as consumed was read exactly once on every path, a live one on none, also after joins. |
| BorrowWalk.Walker.Project | src/check/engine.rs:432-438 | A projection keeps its receiver's root and region. |
| BorrowWalk.Walker.Store | src/check/terms.rs:515-590 | A store of a reference-bearing value is refused when the receiver's root is no local or container and value are rooted apart; otherwise the container takes the stored record and region, and it is a step of the run whichever local the store writes. |
| BorrowWalk.StoreAcceptedExactly | src/check/terms.rs:525-575 | A store is accepted if and only if the types fit and, for a value that bears references, the receiver is rooted at a local in scope and the local it was taken from views no other place. |
| BorrowWalk.Walker.CheckShuffle | src/check.rs:3372-3505 | Each shuffle is its permutation or copy of slots, refused exactly on underflow, on copying a linear value or by the drop checks, and is a step of the run. |
| BorrowWalk.Walker.Dup | src/check.rs:3385-3414 | The copy keeps its region only when it bears references. |
| BorrowWalk.Walker.Drop | src/check.rs:3415-3459 | One value leaves; its type is noted for disposal unless it is a quotation marker. |
| BorrowWalk.Walker.Over | src/check.rs:3467-3490 | The copied value keeps its region; an anonymous aggregate gets one region that both slots name. |
| BorrowWalk.Walker.Rot | src/check.rs:3491-3501 | The third value comes to the top. |
| BorrowWalk.Walker.Swap | src/check.rs:3460-3466 | The two top values change places. |
| BorrowWalk.Walker.CarriedBorrow | src/check.rs:3208-3265 | Rejected exactly when two bearing operands are rooted apart and something is handed out; otherwise the carried derivation and exactly the regions of the bearing operands. |
| BorrowWalk.Walker.CallWord | src/check/terms.rs:1509-1590 | A call leaves its outputs with the carried derivation, the united regions and surviving captures and the constructor mark, and is a step of the run whatever it lets its outputs reach. |
| BorrowWalk.Walker.MergeArmOutputSlot | src/check.rs:2755-2811 | Accepted exactly when both derivations suspend the same places, or only one side holds one and it is rootless; regions and surviving captures are united, a marker survives only if both sides hold it. |
| BorrowWalk.Walker.JoinArms | src/check.rs:2580-2721 | Any number of arms is accepted exactly when none lets a variant out, all leave the same types and every position can be joined across all of them at once; regions and surviving captures are those of all arms. |
| BorrowWalk.Walker.EliminatorCall | src/check.rs:2580-2721 | With arms that are runs one after the other from the caller's scope, the call is a step of the run whichever arm ran, accepted exactly when the arms agree and none lets a variant out; it leaves the joined row and tables, and a local's move-state is that of all arms. With no arm all but the scrutinee is untouched. |
| MoveStates.JoinAll | src/check/engine.rs:499-522 | A local is live after the join exactly when all arms left it live, consumed exactly when all consumed it, and the site named is some arm's. |
| Closure.Discover | src/driver.rs:127-184 | Succeeds exactly when no reachable file is faulty or imports its way back to itself; then lists the reachable files, each once, the entry first, every target the id of the file it resolves to, and records exactly the declined imports of reachable files. An error names a real reachable fault, a cycle by the two files of an import that closes it. |
| Closure.SameReach | src/driver.rs:127-184 | Reaching by ids and reaching by files are the same. |
| Closure.DeclinedInOrder | src/driver.rs:137-180 | The declined imports are recorded one by one in the order in which files were met and lines are written. |
| Cycles.RejectCycles | src/driver.rs:196-207 | Accepts exactly the acyclic graphs, self-imports counting as cycles, with every module finished. |
| Cycles.DfsDetect | src/driver.rs:209-229 | An error is an import whose target leads back to the importer; success leaves the module finished after everything it imports. |
| Cycles.FinishedIsAcyclic | src/driver.rs:196-229 | A finishing order of all modules rules out every cycle. |
| Intrinsics.OwnAdmits | src/driver.rs:268-282 | A file's lines accumulate in any order: a name is visible when some line lists it or is a wildcard. |
| Intrinsics.Folding.EffectiveOf | src/driver.rs:322-352 | The memoised walk grants nothing unfounded on any graph, never takes `All` across an edge, and is complete on acyclic graphs. |
| Intrinsics.Effective | src/driver.rs:302-313 | On an acyclic graph a name is admitted exactly when the module's own lines admit it or a chain of entries for a dispatched builtin leads to a module whose own lines do. |
| Intrinsics.GatedWordsCross | src/ast.rs:1825-1849 | The words and conversions that cross a chain of entries, by name; a comparison or the dot is visible by the module's own lines alone. |
| Intrinsics.AcceptedClosureIsAcyclic | src/driver.rs:315-321 | A closure that passed cycle rejection is such a graph. |
| Intrinsics.OrderInvisible | src/driver.rs:296-301 | Neither order nor repetition of entries changes what is granted. |
| Packages.ManifestCache.Load | src/packages.rs:125-138 | A manifest is parsed at most once and the cache holds what the file holds. |
| Packages.CheckPackageGraph | src/packages.rs:473-529 | Accepts exactly when no manifest reachable from a cached one has an offending entry and no import was left unresolved; then the cache holds exactly those manifests. An error is genuine. |
| Packages.AuditMeans | src/packages.rs:473-521 | Along `depends:` paths of any length names match and the layer never rises in the order core, fixed, alloc, hosted, so packages on a cycle share one layer. |
| Packages.UseIsAnOrder | src/manifest.rs:12-22 | The four layers are totally ordered, each usable from those above. |
| Packages.RankIsUse | src/packages.rs:507 | Comparing the positions of two layers decides whether one may be used from the other. |
| Scanner.Lex | src/lexer.rs:74-234 | The loop returns the specified tokens or the specified first error, and every span is one plus the newlines before, and one plus the characters since the last of them. |
| Scanner.LexString | src/lexer.rs:110-163 | Content, length and final position of a string literal, or which error it raises. |
| Scanner.LexWord | src/lexer.rs:165-194 | The maximal word, vertical bars glued into it when a `>` follows, and its end position. |
| Scanner.LexWordToken | src/lexer.rs:164-229 | The glued sigil, a comment to its line end, a literal in range, or a word. |
| Lexer.FloatGrammar | src/lexer.rs:45-67 | The float test accepts exactly sign, digits, dot, digits and an optional signed exponent. |
| Spellings.DelimitersPrint | src/lexer.rs:30-32 | A character ends a word if and only if a token prints as it, and it is read as that token. |
| Spellings.WhitespaceIsBlank | src/lexer.rs:82 | The whitespace skipped is Unicode's White_Space, code point by code point. |
| Spellings.RangeIs64Bits | src/lexer.rs:213-219 | An integer is in range if and only if it is a signed number of 64 bits. |
| Spellings.IntGrammar | src/lexer.rs:34-37 | The integer test accepts exactly an optional minus sign and decimal digits. |
| Spellings.ScanSpelling | src/lexer.rs:110-163 | Whichever characters of a string are escaped, it is read back; spelled characters that run into the end of the text or an unknown escape give that error. |
| Spellings.StringGrammar | src/lexer.rs:110-163 | Any text behind a quote is spelled characters up to such a stop, so a string is accepted exactly when they run up to a quote. |
| LexerLaws.RoundTrip | src/lexer.rs:31-234 | Lexing the space-separated print of a token list returns it if and only if every token is one the scanner can emit. |
| LexerLaws.Relex | src/lexer.rs:74-234 | Printing what was lexed and lexing again changes no token. |
| LexerLaws.LexWellFormed | src/lexer.rs:164-229 | Every emitted token is well formed: integers in range, no delimiter inside a word but a vertical bar with `>` behind it. |
| LexerLaws.LinesCompose | src/lexer.rs:80-231 | If a text lexes, it, a line break and another text lex to its tokens and then the other's, moved down, and fail exactly when the other does. |
| LexerLaws.PlainWord | src/lexer.rs:164-229 | A printable text without the six delimiters, opening quote, comment sign and number spelling is one word, whatever it says. |
| LexerLaws.IntegersInRange | src/lexer.rs:213-219 | The spelling of a number is its token when it fits in 64 bits and an error at its start when it does not. |
| LexerLaws.CommentsVanish | src/lexer.rs:203-211 | A lone backslash, a blank and anything up to the line break leave no token. |
| LexerLaws.BlanksSeparate | src/lexer.rs:80-90 | Any white space separates any two tokens. |
| LexerLaws.KnownSigns | src/lexer.rs:91-109 | The six delimiters and the glued sigil are the tokens they are named for. |
| LexerLaws.KnownEscapes | src/lexer.rs:128-143 | The five escapes stand for newline, tab, backslash, quote and NUL. |
| LexerLaws.PositionMeans | src/lexer.rs:74-90 | The line counts the line breaks before an offset and the column the characters since the last, both from one. |

## Left out

- File access, canonicalisation, the environment, manifest parsing and package site selection: fixed answers of a `Disk`.
- The parser, the resolver, lowering, code emission and the command line.
- Display names, spans of declarations, drop-overload and bundle flags, and diagnostic text; identity lives in keys and ids.
- Growing applications (an argument of a nested application that is itself an application): the parser rejects them (`src/parser.rs:3196-3240`), and `Invariant` takes that as the meaning of a well-formed field.
- Flushing while a header is pending and minting between a flush and its rebase: illegal histories, since deferred entries hold staged positions and ids count from the base.
- Instantiator.GenericTypes.SubstituteField: a quotation literal or a borrowed variant in a declared field is outside its precondition, because the source treats both as unreachable there.
- Members.GroundCommutes: the substitution keeps a local that heads an application a variable, the only case in which the substituted signature is one the source can write.
- The spelling of instantiation symbols and type names, whose sanitising is not injective.
- 32-bit widths of ids, array counts, lines and columns: unbounded numbers here.
- BorrowWalk.Walker.BorrowPlace: the checks on what may be borrowed at all and the scan for aliased regions are left out; liveness is a parameter.
- BorrowWalk.Walker.BindLocals: collisions of a local's name with a callable word are left out.
- BorrowWalk.Walker.LeaveScope: which of several leaking names is reported is left open; the source sorts them.
- BorrowWalk.Walker.EliminatorCall: the exhaustiveness check is left out; the arms are given as runs with their exit rows and their trails of move-states.
- BorrowWalk.Walker.Store: whether the stored type fits the receiver is an answer passed in; the rules for quotations and surviving captures of a store, the in-place add and the fetch word are left out.
- BorrowWalk.Walker.CallWord: the region-overlap scan of the operands is an answer passed in.
- BorrowWalk.Walker.Drop: the region-overlap scan and the visibility check of a drop override are answers passed in.
- BorrowWalk.Walker.CheckShuffle: as for `drop`.
- Projections from an owned receiver, which record a child region rather than a derivation, and the overlap of regions along field chains.
- Scoping.RunIsNameless: the interpreter has integers, closures, references as values, shuffles and addition; user words run in an empty scope under a step budget.
- The order in which cached manifests are taken first: the source sorts them, the model takes any order, so which of several defects is reported first is open.
- The value of the intrinsic fold on cyclic graphs, beyond being sound; cycle rejection runs first.
- Float values: a float token keeps its spelling.
- Hub re-export walks, whose answer depends on map iteration order.
