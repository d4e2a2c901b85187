# Verification of Clerkenwell's protocol, replica documents and generator

This project models the parts of Clerkenwell whose behaviour is hard to see from any one function, and proves what they promise.

**Publications and commands** (`Publications*.dfy`, `ConnectionTask.dfy`). Every connection of a projection server reads one numbered log of publications through a bounded window. Commands run beside their connection, and their outcomes are numbered under a lock. A connection that falls behind drops its receiver, sends each subscription a new snapshot and answers the commands it skipped. A shutdown interleaves with all of it. The protocol is a transition system: a state, the steps that change it, and an invariant that every step keeps. What is promised is then read off the invariant for every reachable state. A server is shown never to get stuck, stopped or not: its own steps lead to where every command is answered and every published change has arrived, or everyone is closed. `ConnectionTask` holds the per-connection code in its own form, a task changing its fields in loops, proved against the transition system's functions.

**Replica documents** (`Store`, `KeyedList`, `StructuredDocument*`, `StructuredMap`, `MapContainers`, `ListContainer`, `DocumentShapes`, `HeldDocuments`, `HeldValues`, `FieldSlots`, `ReplicaWrites`, `ReplicaReads`, `ReplicaDocuments`). A replica writes a JSON document as differences into maps, lists and texts, and reads it back. A store is a nested structure of cells; a field's containers are addressed by the field and the identities of the items around it. The writers and readers are methods with the loops of the original, each proved against a function or a relation about which the round trips are proved. Where a round trip can fail, the condition under which it holds is stated for whatever the store holds, and proved in both directions.

**Conflict policy** (`Policy`, `PolicySequences`, `PolicyRuns`, `PolicyHistories`). The judgement of one edit, lifted to runs of accepted edits, each made from some earlier accepted document and merged into the last one. An item is listed by entries of its sequence's order list, which an edit takes away and puts there, and its containers outlive it. A value that is not set is read in an empty form where the object around it requires it and is there; the theorems about values take that form for unset, and `FormChanges` says when it comes and goes.

**The generator** (`Schemas`, `SchemaForms`, `ReferenceChains`, `Admits`, `AdmitsExactly`, `Boxing`, `JsonSchemas`, `JsonSchemaMeaning`, `SchemaDocuments`, `SchemaImports`, `SchemaRoundTrips`, `Samples`, `SampleShapes`, `OrderedObjects`, `Normalization`, `Numbers`, `Printing`, `JsonReader`). The meaning of the schema subset, the comparison of two schemas, the boxing of recursive Rust types, the export to JSON Schema and the import from it, the samples, and the ordered JSON objects, their normal form, their text, and a reader of JSON texts that gives the documents back.

`dafny verify dfyconfig.toml` checks everything.

## What the model takes for granted

- The host takes a modification's number before it publishes the change, a snapshot holds exactly the modifications up to its number, and a command that saved a modification neither fails nor panics (`crates/clerkenwell-session/src/modifications.rs:13-16`). Encodings and resync snapshots succeed.
- Numbering a publication and sending it are two steps under one lock, so every other task can run between them. Counting a command and taking its permit are two steps as well.
- Loro is a nested store with one writer at a time. A child container made after its key was deleted starts empty, and a kept list's order list takes the place of whatever else is stored under its key. A text update leaves the text given to it, and a list is rewritten by some valid edit script.
- An edit that is judged may be any number of writes over its base. It comes to the order list entries it takes away and those it puts, the values it leaves, and the keys of values it wrote and gave back. Merging it takes away and puts those entries, leaves the values it did not write as they are, and writes those nobody else has written since its base. Of two writes of a scalar the store keeps the one it takes for the later, which is part of the edit. What two writes of a text, list or map merge to is left open, and so is which sequences and derived identities, beside the values, the merged document has.
- The collation is any relation; where it must order keys, that is a hypothesis.
- Numbers of generator JSON are reals, or their shortest digits and exponent where they are printed. NaN, the infinities and negative zero are left out.

## Findings

Where the code does not do what one might read into it, the model follows the code and a lemma says so.

- A list kept by one identity and rewritten as one kept by another leaves the old items behind unless their identities are named again (`StructuredDocumentExact.ChangedIdentityIsLost` at a document, `StructuredDocumentExact.IdentityChangeExactly` for the exact condition). So does an object with a member named `$items` that becomes a kept list (`StructuredDocumentExact.ItemsMemberIsLost`, `StructuredDocumentExact.ItemsObjectExactly`). A list kept by identity overwritten by an object is still read as a list (`StructuredDocumentTheorems.ListNeverReadsAsObject`).
- An item that leaves a keyed sequence and comes back without an optional field it once had gets the field's old value again, because neither step clears the item's containers (`ReplicaDocuments.ReturningItemDiffers`, at documents in `ReplicaDocuments.ReturnedNoteDiffers`; `ReplicaWrites.WritesWhole` is the exact condition, by `ReplicaDocuments.UpdateExactly`).
- A valid document that leaves out an optional structured list it had is refused, though every other storage takes the absence (`ReplicaWrites.DroppedListIsRefused`). With containers addressed by field and identities nothing else valid is refused, by `ReplicaWrites.AcceptedExactly`; the code, which makes their names from templates, also refuses an identity with an opening brace.
- A valid document without an optional property text is written, and cannot be materialised (`ReplicaDocuments.MissingTextIsNotMaterialized`).
- A number field written as an integer is read back as a float, a property text loses members other than its own two, a required string whose codec takes the empty one for absent is lost when it is empty, and an integer beyond an `i64` becomes a double (`FieldSlots.PlainSeedExactly` gives the exact condition, `Store.StoredIsExact` the last).
- Removing a keyed item is accepted even if it takes with it an explicit value its writer never saw (`PolicyHistories.RemovalReplacesUnseenValue`). Moving an item that another edit has removed is accepted and brings it back with the values it had (`PolicyHistories.MoveBringsBackRemoved`). An item two edits moved at once is listed twice, and two later edits that each drop one of the two entries lose it, together with a value that is immutable to everyone (`PolicyHistories.ImmutableIsLost`). The exact conditions are those of `PolicyRuns`.
- The judgement compares documents, while an update carries every write since its base. One that writes a value and gives back the one it found shows no change, is accepted under any policy, and can replace what another edit has set since (`PolicyHistories.GivenBackReplacesUnseenValue`); while the items stay listed this is the only way a scalar that is set is so replaced, or one that is not is set (`PolicyRuns.ImmutableKindGivesBack`, `PolicyRuns.ExplicitReplacedFromItsValue`). One that sets a value and then removes its item shows no value, and sets one that is immutable to everyone if another edit keeps the item (`PolicyHistories.ImmutableIsSet`, `PolicyRuns.UnsetStaysUnset`).
- An unset member in the empty form its object requires goes, unjudged, when the last member beside it does: an edit that clears that member takes away an explicit empty value it never saw (`PolicyHistories.RestoredGoesUnseen`), and two edits that each clear one of two such members together take away one that is immutable to everyone (`PolicyHistories.ImmutableFormGoes`). `PolicyRuns.FormChanges` is the exact condition.
- What is exported of a schema with a tagged union in it is refused by the import, as the export leaves the union its type and the import takes `oneOf` only by itself (`SchemaRoundTrips.UnionIsRefused`). What is exported of opaque JSON is imported as a schema without a type, which validation refuses. Everything else comes back as it was (`SchemaRoundTrips.ReturnsExactly`), and without its type a union does as well, unless another member could be its tag (`SchemaRoundTrips.UnionReturnsExactly`).
- Validation returns from a tagged union before it checks `const` and `required`. A union that declares a `const` is sampled as that constant (`Samples.StrayConstantIsNoValue`), and one that requires members beside its variants is sampled without them (`Samples.StrayRequirementIsNoValue`); `Samples.UnionSampleExactly` says when such a sample is a value all the same.

## Model

| member | source | states |
|---|---|---|
| PublicationsRuns.StepKeeps | crates/clerkenwell-axum/src/lib.rs:518-845 | Every step of any task (starting, taking, lagging, mutating, subscribing, admitting, stopping) keeps the protocol's invariant |
| PublicationsTheorems.ReachableKeeps | crates/clerkenwell-axum/src/lib.rs:597-690 | The invariant holds in every state any run reaches, for any window and any command limit |
| PublicationsTheorems.OfferedExactlyOnce | crates/clerkenwell-session/src/server.rs:538-653 | The modifications offered as patches to a live subscription are exactly the affecting ones its connection processed with a number after its snapshot's, each once |
| PublicationsTheorems.NothingLost | crates/clerkenwell-axum/src/lib.rs:644-672 | A modification a subscription wants is in its snapshot, was offered, is still unpublished by the one that saved it, or lies where the receiver has yet to bring it |
| PublicationsOwners.PublishedIsDelivered | crates/clerkenwell-axum/src/lib.rs:765-792 | Each change published, by a served mutation, an announcement or a command that was done, below where the receiver has brought a live subscription is in its snapshot, does not concern it, or was offered to it |
| PublicationsOwners.UnsentIsAtHand | crates/clerkenwell-axum/src/lib.rs:644-672 | An unpublished modification is held by a task that has not sent it, by the connection mutating or publishing it, or by the host, and stands in no publication of the log |
| PublicationsOwners.CarriedIsOf | crates/clerkenwell-axum/src/lib.rs:765-792 | A publication carries the change of the served mutation, of the announcement, or of the command that was done, and no other publication carries one |
| PublicationsOwners.SubscriptionBegins | crates/clerkenwell-session/src/server.rs:816-860 | A new subscription follows the projection asked for from a snapshot of everything saved, under an id of its own, and no other changes |
| PublicationsOwners.SubscriptionBeginsAnew | crates/clerkenwell-session/src/server.rs:862-896 | A subscription sent anew follows what it did, from a snapshot of everything saved, and no other changes |
| PublicationsOwners.SubscriptionEnds | crates/clerkenwell-session/src/server.rs:906-922 | An ended subscription is gone, and no other changes |
| PublicationsOwners.NothingStartsStopping | crates/clerkenwell-axum/src/lib.rs:518-549 | Over every run of a stopping server no command is accepted that was not being started, by any connection or the host, and no connection is served that was not |
| PublicationsOwners.DisconnectedEnds | crates/clerkenwell-axum/src/lib.rs:597-690 | A connection that disconnects is served no longer, without having been closed, and no other changes |
| PublicationsTheorems.SettledHoldsAll | crates/clerkenwell-session/src/modifications.rs:22-31 | Once a connection has taken everything and nobody holds a modification unpublished, each subscription holds every modification that affects it |
| PublicationsTheorems.SkippedIsInSnapshot | crates/clerkenwell-axum/src/lib.rs:650-668 | Every publication a lagging connection skipped has its modification inside the snapshot it then sends |
| PublicationsTheorems.AnsweredExactlyOnce | crates/clerkenwell-axum/src/lib.rs:694-845 | Every accepted command has at most one answer, has one as soon as its connection has passed its outcome, and until then is running, published further on or held by its task |
| PublicationsTheorems.RanNumbersDiffer | crates/clerkenwell-axum/src/lib.rs:808-820 | No two commands of a connection ran at one number, so the skipped ones always have an order |
| PublicationsTheorems.AnswersStay | crates/clerkenwell-axum/src/lib.rs:765-845 | No step takes back an answer |
| PublicationsTheorems.AnswersFollowPublications | crates/clerkenwell-axum/src/lib.rs:765-784 | Answers leave in increasing publication number, and as each left every subscription held, in its snapshot or as a patch, every modification published before it that affects it |
| PublicationsTheorems.LimitsHold | crates/clerkenwell-axum/src/lib.rs:694-715 | The limit on running commands is kept and no count falls below zero |
| PublicationsTheorems.ClosingFollowsEveryCommand | crates/clerkenwell-axum/src/lib.rs:518-540 | Closing is numbered after the outcome of every command ever started |
| PublicationsTheorems.OwedPrecedesClosing | crates/clerkenwell-axum/src/lib.rs:731-738 | A command still owed an answer is numbered before Closing |
| PublicationsTheorems.ClosingIsNotMissed | crates/clerkenwell-axum/src/lib.rs:543-549 | A counted connection has Closing ahead of its receiver, or fell behind past it and comes to the check once it has caught up, or is at the check and is closed by its next step |
| PublicationsTheorems.ClosedOwesNothing | crates/clerkenwell-axum/src/lib.rs:644-688 | A connection the shutdown closed has answered every command it accepted |
| PublicationsTheorems.ShutDownIsComplete | crates/clerkenwell-axum/src/lib.rs:518-540 | When the counts a shutdown waits for are zero, no command runs and no connection is served |
| PublicationsProgress.ShutDownCanComplete | crates/clerkenwell-axum/src/lib.rs:518-549 | From every state a shutdown can be in, some run of the server's own steps, with no request and no disconnection, ends with no command running and no connection served, each that was served closed by the shutdown with every command it accepted answered |
| PublicationsProgress.WorkAdvances | crates/clerkenwell-axum/src/lib.rs:597-845 | While anything is counted, held, being sent or to be closed, some own step is enabled that leaves less of it |
| PublicationsProgress.Closes | crates/clerkenwell-axum/src/lib.rs:644-688 | Once nothing else is to be published, a served connection takes what is left, or catches up, and is closed |
| PublicationsLiveness.EverythingArrives | crates/clerkenwell-axum/src/lib.rs:597-845 | From every reachable state of a server that is not stopped, some run of its own steps, with no request, leads to where each connection served has answered every command it had accepted and each subscription has every modification saved that concerns it, but those its host has saved and not announced |
| PublicationsLiveness.CommandIsCarried | crates/clerkenwell-axum/src/lib.rs:694-792 | From every reachable state in which a connection is idle and there is a permit, its command can run, save its change and be answered with its id, and every subscription then has the change |
| PublicationsLiveness.HostCommandIsCarried | crates/clerkenwell-axum/src/lib.rs:471-516 | And a command of the host's can |
| PublicationsLiveness.MutationIsCarried | crates/clerkenwell-axum/src/lib.rs:425-469 | A mutation a connection asks for can reach every subscription, its own too |
| PublicationsLiveness.AnnouncementIsCarried | crates/clerkenwell-axum/src/lib.rs:253-267 | A change the host saves and announces can reach every subscription |
| PublicationsLiveness.AdmittedIsServed | crates/clerkenwell-axum/src/lib.rs:543-559 | A connection that is admitted while the server is not stopped comes to be served |
| PublicationsLiveness.ShutDownEnds | crates/clerkenwell-axum/src/lib.rs:518-549 | From every reachable state a shutdown can come to its end by the server's own steps |
| ConnectionTask.ServedConnection.DeliverChange | crates/clerkenwell-session/src/server.rs:538-610 | Delivering a change to each subscription in turn is the protocol's delivery |
| ConnectionTask.ServedConnection.AnswerCommand | crates/clerkenwell-axum/src/lib.rs:765-784 | Answering a command is the protocol's answer |
| ConnectionTask.ServedConnection.TakeNext | crates/clerkenwell-axum/src/lib.rs:746-796 | Taking a publication moves the receiver past it, delivers its change and answers a command as the protocol's step does, and tells whether it is the one that closes |
| ConnectionTask.ServedConnection.ResyncAll | crates/clerkenwell-session/src/server.rs:612-653 | Every subscription gets a new snapshot, in any order, each of what was saved when it was taken |
| ConnectionTask.ServedConnection.AnswerSkipped | crates/clerkenwell-axum/src/lib.rs:801-845 | The skipped commands are answered by their numbers, each once, and the others stay running |
| ConnectionTask.SkippedOrder | crates/clerkenwell-axum/src/lib.rs:808-820 | The commands that ran at or below the skipped number, each once, sorted by number |
| ConnectionTask.InsertByNumber | crates/clerkenwell-axum/src/lib.rs:808-820 | An entry is put at its place among entries already in order |
| Policy.JudgedFieldPaths | crates/clerkenwell-doc/src/policy.rs:49-100 | The conflicts of an edit are exactly the keys whose change breaks the policy that applies |
| Policy.ConflictsExactly | crates/clerkenwell-doc/src/policy.rs:65-100 | A key of a plain field is in conflict exactly when the policy of the first of its writers of the kind, or its own if none is, is immutable and client and base differ there, or explicit and base, client and accepted value all differ from one another |
| Policy.WriterConflictIsFirst | crates/clerkenwell-schema/src/lib.rs:225-230 | A kind's own policy is that at the least index of the writers of the kind, and there is none exactly when no writer is of the kind |
| Policy.FieldConflicts | crates/clerkenwell-doc/src/policy.rs:49-100 | The same for one field, over the values of the base, the client's document and the accepted one |
| PolicyRuns.ImmutableKeepsCreation | crates/clerkenwell-doc/src/policy.rs:49-100 | Over every run of accepted edits a value judged immutable throughout stays what it was at creation: one that was set exactly when no edit leaves an item around it without entries, one that was not exactly when no edit leaves its item listed after the last write kept was one its writer did not leave listed |
| PolicyRuns.UnsetStaysUnset | crates/clerkenwell-doc/src/policy.rs:49-100 | An immutable value held nowhere stays so unless an edit writes it in an item it does not leave listed |
| PolicyRuns.HeldIsLastWritten | crates/clerkenwell-doc/src/policy.rs:49-100 | In such a run what is held is what the last edit whose write was kept wrote |
| PolicyRuns.ImmutableKindLeavesValue | crates/clerkenwell-doc/src/policy.rs:49-100 | An accepted edit of a kind judged immutable writes only what it gives back, empties in an item its base did not list, or has in an item it does not leave listed; what is visible it replaces exactly when it relists the item or, by one of these writes the store keeps, leaves another value |
| PolicyRuns.FormChanges | crates/clerkenwell-doc/src/substrate.rs:288-321 | What an accepted document has of a value changes exactly when the value does, or when it is unset and its required empty form comes or goes with what lies beside it |
| PolicyRuns.FormsNotBroken | crates/clerkenwell-doc/src/policy.rs:65-100 | Acceptance by the policy of a keyed sequence, compared as a whole array, is acceptance by that policy of every value inside it |
| PolicySequences.ReadFromArray | crates/clerkenwell-doc/src/policy.rs:116-161 | A value inside a keyed sequence is read from the array that is the sequence's own value |
| PolicySequences.ValuesAreLedTo | crates/clerkenwell-doc/src/policy.rs:116-161 | The values judged are those that the path leads to in the document, item by item along the identities of the key, where items have identities of their own |
| PolicyRuns.ImmutableKindGivesBack | crates/clerkenwell-doc/src/policy.rs:82-88 | While its items stay listed, it replaces a scalar exactly when it gives back what it found, another edit has replaced that since, and its write is taken for the later |
| PolicyRuns.ExplicitReplacesUnseen | crates/clerkenwell-doc/src/policy.rs:49-100 | An accepted edit of a kind judged explicit replaces a value its base did not show exactly when it relists an item around it, has written another one in an item it emptied or does not leave listed, or its contested write of another value is taken for the later |
| PolicyRuns.ExplicitReplacedFromItsValue | crates/clerkenwell-doc/src/policy.rs:82-95 | Where the items around it stay listed, it replaces a scalar its base did not show exactly when it gives back what it found and that is taken for the later write; otherwise only what its base showed, with the value it leaves |
| PolicyRuns.ExplicitContested | crates/clerkenwell-doc/src/policy.rs:82-95 | Two writes of an explicit value meet only where the second found the value there, leaves it, or gives back the one it found |
| Policy.CreationLeavesImmutableUnset | crates/clerkenwell-doc/src/policy.rs:36-47 | A creation is accepted exactly when it leaves unset every field its kind's own policies make immutable |
| PolicyHistories.RemovalReplacesUnseenValue | crates/clerkenwell-doc/src/policy.rs:116-161 | A run in which an accepted removal takes away an explicit value its writer never saw |
| PolicyHistories.MoveBringsBackRemoved | crates/clerkenwell-doc/src/substrate.rs:391-471 | A run in which an accepted move brings back an item another edit removed, and with it a value nobody set |
| PolicyHistories.ImmutableIsLost | crates/clerkenwell-doc/src/substrate.rs:1076-1119 | A run of edits that each leave an immutable value alone and together lose the item that holds it |
| PolicyHistories.GivenBackReplacesUnseenValue | crates/clerkenwell-doc/src/lib.rs:448-499 | A run in which an accepted update that gives back what it found replaces an explicit value it never saw, by a writer judged explicit or immutable |
| PolicyHistories.ImmutableIsSet | crates/clerkenwell-doc/src/lib.rs:448-499 | A run in which an update that sets a value and removes its item sets one that is immutable to everyone |
| PolicyHistories.RestoredGoesUnseen | crates/clerkenwell-doc/src/substrate.rs:288-321 | A run in which an explicit member goes from its empty form to none by an edit that neither wrote it nor saw that form |
| PolicyHistories.ImmutableFormGoes | crates/clerkenwell-doc/src/substrate.rs:288-321 | A run in which two edits, each clearing another member, take away the empty form of one immutable to everyone |
| Store.StoredIsExact | crates/clerkenwell-doc/src/substrate.rs:1425-1455 | A value reads back as itself exactly when every integer in it is one an i64 holds |
| Store.IntegerReadsAs | crates/clerkenwell-doc/src/substrate.rs:1425-1455 | An integer beyond 64 bits reads back as the float of its value, and every other as itself |
| KeyedList.FindIdentity | crates/clerkenwell-doc/src/substrate.rs:1168-1184 | The identity a list is kept by: `id` before `uid`, if every item is an unmarked object with a non-empty identity of its own |
| KeyedList.KeyedIdentityExactly | crates/clerkenwell-doc/src/substrate.rs:1168-1184 | A list is kept by `id` exactly when that member is a non-empty string in each of its unmarked objects and no two have the same, by `uid` exactly when only that member is so, and by nothing else |
| KeyedList.IsKeyedBy | crates/clerkenwell-doc/src/substrate.rs:1168-1184 | One pass with a set of seen identities decides whether a list is keyed by a name |
| KeyedList.ReadKeys | crates/clerkenwell-doc/src/substrate.rs:1358-1408 | The reader's pass over the order list and the sorted keys yields the order the lemmas are about |
| KeyedList.ReadsEveryItemOnce | crates/clerkenwell-doc/src/substrate.rs:1358-1408 | For any order list, every stored map item is read exactly once: those named by first mention, then the rest ascending |
| KeyedList.ReadsOwnOrder | crates/clerkenwell-doc/src/substrate.rs:1358-1408 | An order list that names exactly the map items, each once, is the order they are read in, whatever other entries there are |
| Strings.SortKeys | crates/clerkenwell-doc/src/substrate.rs:1358-1408 | The keys sorted ascending, each once |
| StructuredDocument.ReadsWhatItHolds | crates/clerkenwell-doc/src/substrate.rs:1327-1356 | A level reads back as the document it holds, at any depth and through kept lists |
| StructuredDocumentWrites.WriteHolds | crates/clerkenwell-doc/src/substrate.rs:1192-1248 | A shape-stable difference written to a level that holds the previous document leaves it holding the next |
| StructuredDocumentWrites.StableListHolds | crates/clerkenwell-doc/src/substrate.rs:1250-1297 | The same for a list kept by identity, whose items come, go, move and change |
| StructuredDocumentWrites.FreshHolds | crates/clerkenwell-doc/src/substrate.rs:1192-1248 | A difference that names every member makes the whole document in an empty map |
| StructuredDocumentTheorems.SeedRoundTrip | crates/clerkenwell-doc/src/substrate.rs:1168-1408 | Any object written to an empty map reads back as it is stored, and as itself exactly when its integers fit |
| StructuredDocumentTheorems.DifferenceRoundTrip | crates/clerkenwell-doc/src/substrate.rs:1192-1408 | A store that holds the previous document, member by member, reads as it, and after a shape-stable difference holds and reads as the next |
| StructuredDocumentTheorems.RunRoundTrip | crates/clerkenwell-doc/src/substrate.rs:1192-1408 | Over any run of shape-stable documents the store reads as the last one written |
| StructuredDocumentTheorems.RoundTripExactlyWhenStable | crates/clerkenwell-doc/src/substrate.rs:1192-1408 | Between documents that change no list's identity and make no object with `$items` a list, the condition is one on the documents alone: shape-stability |
| StructuredDocumentTheorems.FreshOnlyIf | crates/clerkenwell-doc/src/substrate.rs:1192-1248 | A difference that reads back from an empty map names every member |
| StructuredDocumentTheorems.StableOnlyIf | crates/clerkenwell-doc/src/substrate.rs:1192-1297 | Between such documents a difference that reads back as the next one is shape-stable |
| StructuredDocumentTheorems.ListNeverReadsAsObject | crates/clerkenwell-doc/src/substrate.rs:1218-1226 | A list kept by identity overwritten by an unmarked object never reads as it |
| StructuredDocumentExact.RoundTripExactly | crates/clerkenwell-doc/src/substrate.rs:1192-1408 | Whatever the store holds, a written difference reads back as the next document exactly when it lands: nothing is left that neither document names, what it leaves alone reads as it should, and what it writes lands in turn |
| StructuredDocumentExact.ListExactly | crates/clerkenwell-doc/src/substrate.rs:1250-1297 | A kept list reads back exactly when every stored item is named by the new list or by the old one under the same identity, and each item lands on what is stored under its name |
| StructuredDocumentExact.IdentityChangeExactly | crates/clerkenwell-doc/src/substrate.rs:1250-1297 | A list rewritten under another identity reads back exactly when every old identity is a new one or the other identity of an item that was there, and each item lands |
| StructuredDocumentExact.DisjointIdentitiesExactly | crates/clerkenwell-doc/src/substrate.rs:1250-1297 | Where old and new identities have none in common, the condition is one on the two lists alone |
| StructuredDocumentExact.ItemsObjectExactly | crates/clerkenwell-doc/src/substrate.rs:1218-1297 | An object with a member named `$items` rewritten as a kept list reads back exactly when the list names every object and kept list in that member, and each item lands |
| StructuredDocumentExact.ChangedIdentityIsLost | crates/clerkenwell-doc/src/substrate.rs:1250-1297 | A document whose list goes from `id` to `uid` and does not read back |
| StructuredDocumentExact.ItemsMemberIsLost | crates/clerkenwell-doc/src/substrate.rs:1218-1297 | A document whose object with `$items` becomes a list and does not read back |
| StructuredDocumentExact.StableLands | crates/clerkenwell-doc/src/substrate.rs:1192-1297 | A shape-stable difference lands on a store that holds the document it starts from |
| MapContainers.MapContainer.WriteDocument | crates/clerkenwell-doc/src/substrate.rs:1192-1248 | The writer's loops, deleting and writing members in any order through child containers, come to the difference written |
| MapContainers.MapContainer.WriteMember | crates/clerkenwell-doc/src/substrate.rs:1205-1246 | One member is written as its shape demands |
| MapContainers.MapContainer.WriteList | crates/clerkenwell-doc/src/substrate.rs:1250-1297 | A kept list's marker, items and order are written |
| MapContainers.MapContainer.WriteItems | crates/clerkenwell-doc/src/substrate.rs:1263-1283 | Items that went are deleted and the others written, in any order |
| MapContainers.MapContainer.WriteStructuredMap | crates/clerkenwell-doc/src/substrate.rs:1121-1148 | The structured map's writer comes to its difference, in any order |
| StructuredDocumentReader.ReadLevel | crates/clerkenwell-doc/src/substrate.rs:1327-1356 | The reader's loop builds the document of a level, or fails where a marker is damaged |
| StructuredDocumentReader.ReadCell | crates/clerkenwell-doc/src/substrate.rs:1327-1356 | One entry is read as a text, a list, a value, a document or a kept list |
| StructuredDocumentReader.ReadList | crates/clerkenwell-doc/src/substrate.rs:1358-1408 | Each item of a kept list is read in order with its own key as its identity |
| StructuredDocumentReader.MarkedReads | crates/clerkenwell-doc/src/substrate.rs:1327-1408 | A marked map reads as a list, an empty one without a map of items, each item with its key as its identity, and cannot be read exactly where its marker is no string or an item cannot |
| StructuredDocumentReader.ReadExactly | crates/clerkenwell-doc/src/substrate.rs:1327-1356 | A cell reads as a string exactly when it is a text or a string, and as an object exactly when it is one or an unmarked map that can be read |
| StructuredDocumentReader.OrderExactly | crates/clerkenwell-doc/src/substrate.rs:1358-1408 | The order is the order list's strings, whatever else it holds |
| StructuredMap.WriteOverlays | crates/clerkenwell-doc/src/substrate.rs:1121-1148 | Writing a difference overlays it on what any map reads as, held or not by the writer's base |
| StructuredMap.ViewedExactly | crates/clerkenwell-doc/src/substrate.rs:1121-1148 | Which cells a structured map reads as strings, lists and objects |
| StructuredMap.OverlayRewrites | crates/clerkenwell-doc/src/substrate.rs:1121-1148 | A difference overlaid on the document it starts from is the document it leads to |
| StructuredMap.DifferenceRewrites | crates/clerkenwell-doc/src/substrate.rs:1121-1148 | Writing a difference is the same as rewriting the map from empty, whatever shapes change |
| StructuredMap.MapExactly | crates/clerkenwell-doc/src/substrate.rs:1121-1148 | Whatever the map holds, a written difference reads back as the next document exactly when it lands |
| StructuredMap.OverlaysCommute | crates/clerkenwell-doc/src/substrate.rs:1121-1148 | Disjoint differences from one base may be written in either order to any document |
| StructuredMap.DifferencesMerge | crates/clerkenwell-doc/src/substrate.rs:1410-1423 | Two disjoint differences written in either order leave the three-way merge |
| StructuredMap.BothChangesSurvive | crates/clerkenwell-doc/src/substrate.rs:1121-1148 | At every path one writer left alone, the merge has what the other wrote |
| StructuredMap.DisjointExactlyWhenNoClash | crates/clerkenwell-doc/src/substrate.rs:1121-1148 | Differences are disjoint exactly when at no path both change the value and not both to objects |
| ListContainer.List.WriteList | crates/clerkenwell-doc/src/substrate.rs:1079-1119 | For every valid edit script the loop stays in range, ends with the desired list, holds the original entries of equal runs in their places and no other original entry |
| ListContainer.List.ApplyEdit | crates/clerkenwell-doc/src/substrate.rs:1093-1117 | One edit deletes and inserts at its place and leaves the rest |
| ListContainer.List.InsertAll | crates/clerkenwell-doc/src/substrate.rs:1113-1116 | Values inserted one by one stand in order |
| ListContainer.RunWritten | crates/clerkenwell-doc/src/substrate.rs:1093-1117 | One more run keeps what the earlier runs have put in place |
| ListContainer.KeptExactlyInEqualRuns | crates/clerkenwell-doc/src/substrate.rs:1076-1078 | An original entry is still there exactly when it lies in an equal run |
| DocumentShapes.SetShapes | crates/clerkenwell-doc/src/substrate.rs:963-986 | Setting a value at a path apart from the entries succeeds and adds exactly that entry |
| DocumentShapes.ShapeIsUnique | crates/clerkenwell-doc/src/substrate.rs:963-986 | There is one object of given entries |
| DocumentShapes.LeadsExactlyToEntries | crates/clerkenwell-doc/src/substrate.rs:943-946 | A path leads somewhere exactly when an entry lies at or below it |
| HeldDocuments.HeldHasShape | crates/clerkenwell-conformance/src/documents.rs:109-203 | The walk of the wire document makes exactly the entries of the plan's fields and the members restored beside them |
| HeldDocuments.HeldNames | crates/clerkenwell-conformance/src/documents.rs:109-168 | A member is held exactly when a field under its name is |
| HeldValues.HeldThroughItems | crates/clerkenwell-doc/src/substrate.rs:288-328 | At any path through keyed items the held document leaves an optional plain field out exactly when its value is null, the empty text, the empty list or the empty object, and otherwise has it as given |
| HeldValues.SeededThroughItems | crates/clerkenwell-conformance/src/documents.rs:109-203 | And so has the document a seeded replica materialises |
| HeldValues.RestoredForm | crates/clerkenwell-doc/src/substrate.rs:288-321 | The empty form, codec by codec, of an unset member its parent requires: the empty text, the empty list, or none |
| FieldSlots.PlainWriteExactly | crates/clerkenwell-doc/src/substrate.rs:488-672 | Whatever a field's containers hold, after a change they read as the new value exactly when the change makes it whole, for every storage and codec |
| FieldSlots.PlainSeedExactly | crates/clerkenwell-doc/src/substrate.rs:488-755 | A valid value written where nothing was reads back exactly when storage keeps it |
| FieldSlots.PlainAccepted | crates/clerkenwell-doc/src/substrate.rs:488-672 | Every change to a valid value is accepted but one that leaves out a structured list that was there |
| FieldSlots.AcceptsExactly | crates/clerkenwell-doc/src/substrate.rs:866-920 | Validation takes a value exactly when it is of the field's codec, each written out, and none at all only for a list of strings that is not required |
| FieldSlots.WriteAcceptedExactly | crates/clerkenwell-doc/src/substrate.rs:473-612 | A plain field takes a new value exactly when it is of its codec; one that is not required also takes none, but for a structured list, and one with an optional codec anything |
| FieldSlots.AbsentExactly | crates/clerkenwell-doc/src/substrate.rs:674-755 | Whatever its containers hold, a plain field is absent exactly when they are empty, and a map or document unmarked, and cannot be read exactly when a property text has no type or a document is damaged |
| FieldSlots.UniqueNamesExactly | crates/clerkenwell-doc/src/substrate.rs:1026-1040 | A sequence's names are the strings and integers of its order list, each once and the empty one left out |
| FieldSlots.ReturningFieldExactly | crates/clerkenwell-doc/src/substrate.rs:432-457 | A scalar, text or list of an item that comes back reads as the item has it exactly when the item has a value storage keeps, or has none and its old containers show none |
| FieldSlots.MapChangeIsWhole | crates/clerkenwell-doc/src/substrate.rs:613-641 | A change of a map whose objects are child maps is whole exactly when its integers fit, and leaves them so |
| FieldSlots.StableChangeIsWhole | crates/clerkenwell-doc/src/substrate.rs:642-667 | A shape-stable change of a document held member by member is whole exactly when its integers fit, and leaves it so held |
| ReplicaWrites.AcceptedExactly | crates/clerkenwell-doc/src/substrate.rs:391-612 | A change between valid values, through keyed sequences however deep, is accepted exactly when it leaves out no structured list that was there |
| ReplicaWrites.WriteShowsExactly | crates/clerkenwell-doc/src/substrate.rs:391-471 | Whatever the containers hold, once a change is written they read as the new value exactly when it makes it whole: through sequences however deep, with items that come, go and come back |
| ReplicaWrites.WholeExactlyWhenSafe | crates/clerkenwell-doc/src/substrate.rs:391-471 | Where the containers read as the previous value, that comes down to changed maps and documents landing and to items that were not there |
| ReplicaWrites.SeedShowsExactly | crates/clerkenwell-doc/src/substrate.rs:391-471 | A valid value written where nothing was is accepted, and reads back exactly when storage keeps every part of it |
| ReplicaWrites.ReturningItemIsNotWhole | crates/clerkenwell-doc/src/substrate.rs:432-457 | A field a returning item leaves out, whose containers still show a value, keeps the document from being whole |
| ReplicaWrites.DroppedListIsRefused | crates/clerkenwell-doc/src/substrate.rs:604-612 | A valid document that leaves out an optional structured list is refused |
| ReplicaWrites.Containers.WriteDocument | crates/clerkenwell-doc/src/substrate.rs:126-157 | Fields and then sequences are written in any order; a document is written exactly when it is valid and leaves out no structured list that was there, and then shown exactly when the change makes it whole |
| ReplicaReads.Materialize | crates/clerkenwell-doc/src/substrate.rs:159-210 | Whatever the containers hold, what is materialised is the one object of the entries they show and the members restored beside them, if it is valid |
| ReplicaReads.ReadNode | crates/clerkenwell-doc/src/substrate.rs:212-281 | Fields, sequences and restored members, set in any order, make that object of a document or an item |
| ReplicaReads.ReadSequence | crates/clerkenwell-doc/src/substrate.rs:212-281 | Each item the order list names is read from its own containers in order |
| ReplicaReads.RestoreMembers | crates/clerkenwell-doc/src/substrate.rs:288-321 | Exactly the members a present parent requires are restored, in any order |
| ReplicaReads.ReadSlot | crates/clerkenwell-doc/src/substrate.rs:674-755 | A plain field is read by its storage and codec |
| ReplicaDocuments.SeedExactly | crates/clerkenwell-conformance/src/documents.rs:79-106 | A valid document of declared members written to an empty replica materialises as the held document exactly when storage keeps every part of it and its items' derived identities are theirs |
| ReplicaDocuments.UpdateExactly | crates/clerkenwell-doc/src/substrate.rs:126-210 | Written over another, whatever the containers held, any valid document materialises as the held document exactly when the change makes it whole (storage keeps what is written, and what is left alone is shown already) and the derived identities are its items' |
| ReplicaDocuments.ShownUpdateExactly | crates/clerkenwell-doc/src/substrate.rs:126-210 | Written over containers that show the previous document, exactly when the change is safe and the derived identities are its items' |
| ReplicaDocuments.ShownMaterializes | crates/clerkenwell-doc/src/substrate.rs:159-210 | Containers that show a document materialise as the held document |
| ReplicaDocuments.MaterializedIsShown | crates/clerkenwell-doc/src/substrate.rs:159-321 | Containers that materialise as the held document show it, restored members notwithstanding |
| ReplicaDocuments.MadeIsValid | crates/clerkenwell-doc/src/substrate.rs:204-209 | What is held of a valid document passes validation |
| ReplicaDocuments.RunMaterializes | crates/clerkenwell-doc/src/lib.rs:126-138 | Over any run of safe changes every document materialises as the one held of it |
| ReplicaDocuments.ReturningItemDiffers | crates/clerkenwell-doc/src/substrate.rs:391-471 | An item removed and given again without a field it showed makes the replica materialise as another document than it is to hold |
| ReplicaDocuments.ReturnedNoteDiffers | crates/clerkenwell-doc/src/substrate.rs:391-471 | Three documents, an item with a note, none, and the item without the note, of which the last is not materialised as it is held |
| ReplicaDocuments.MissingTextIsNotMaterialized | crates/clerkenwell-doc/src/substrate.rs:688-708 | A valid document without an optional property text is written and cannot be materialised |
| ReplicaDocuments.Replica.ReplaceDocument | crates/clerkenwell-doc/src/lib.rs:126-138 | The difference is written from the last document written or, after an update, from the one materialised; it is refused exactly when there is none, the document is not valid or it leaves out a structured list that was there |
| ReferenceChains.CheckReferenceChains | crates/clerkenwell-codegen/src/validate.rs:1431-1450 | Validation passes exactly when the chain from every definition ends |
| ReferenceChains.FollowChain | crates/clerkenwell-codegen/src/validate.rs:1433-1447 | The growing chain meets a name twice, or an unknown one, exactly when there is no end |
| ReferenceChains.LastExactlyWhenEnds | crates/clerkenwell-codegen/src/validate.rs:1429-1450 | A chain followed with the names met set aside ends exactly when it ends followed without |
| ReferenceChains.Dereference | crates/clerkenwell-codegen/src/validate.rs:914-923 | Once the chains are checked, following one ends at its last schema |
| SchemaForms.ObjectPassesExactly | crates/clerkenwell-codegen/src/validate.rs:1261-1430 | Validation passes an object exactly when its members' schemas and that of the others pass and what it requires is declared |
| SchemaForms.UnionPassesExactly | crates/clerkenwell-codegen/src/validate.rs:1793-1871 | And a tagged union exactly when it has variants, each a closed object that passes and leaves out the tag |
| SchemaForms.ScalarPassesExactly | crates/clerkenwell-codegen/src/validate.rs:1453-1469 | And a schema of one kind exactly when its bounds are of that kind, a least length a whole number |
| SchemaForms.ConstantPassesExactly | crates/clerkenwell-codegen/src/validate.rs:1686-1791 | And one with a constant exactly when the constant is of its kind, which is primitive |
| Admits.AdmitsIsSound | crates/clerkenwell-codegen/src/validate.rs:1508-1677 | When the comparison of validated schemas says yes, every value of the member schema is one of the other members' schema, through recursive definitions |
| Admits.YesIsSimulated | crates/clerkenwell-codegen/src/validate.rs:1525-1540 | A comparison that says yes went through pairs that stand or fall with one another and the assumed ones |
| Admits.SimulationIsSound | crates/clerkenwell-codegen/src/validate.rs:1508-1510 | Pairs that stand or fall only with one another all stand, by descent into the value |
| Admits.KeywordsAreMet | crates/clerkenwell-codegen/src/validate.rs:1542-1657 | What the types, lists, constants and bounds of the one admit, those of the other allow |
| Admits.Compares | crates/clerkenwell-codegen/src/validate.rs:1511-1677 | The comparison with its growing set of assumed pairs always ends, with the verdict the soundness is about |
| Admits.CheckOpenObject | crates/clerkenwell-codegen/src/validate.rs:1471-1506 | Validation passes an open object exactly when it declares a member, none named as the field for the others, and every declared member is admitted |
| AdmitsExactly.AdmitsExactlyWhenSimulated | crates/clerkenwell-codegen/src/validate.rs:1508-1540 | The comparison says yes exactly when the two schemas lie among pairs that stand or fall only with one another, so recursion alone never refuses |
| AdmitsExactly.AdmitsItself | crates/clerkenwell-codegen/src/validate.rs:1508-1677 | A validated schema of primitive kinds, unions, enumerations, arrays, records and references admits itself |
| AdmitsExactly.ArraysExactly | crates/clerkenwell-codegen/src/validate.rs:1657-1664 | An array admits another exactly when its items do the other's |
| AdmitsExactly.RecordsExactly | crates/clerkenwell-codegen/src/validate.rs:1665-1677 | A record admits another exactly when its values do the other's, and an object that declares members neither admits nor is admitted |
| AdmitsExactly.ReferencesExactly | crates/clerkenwell-codegen/src/validate.rs:1511-1540 | References are compared as what their chains lead to, unless they are one name or lead to one definition |
| AdmitsExactly.ScalarsExactly | crates/clerkenwell-codegen/src/validate.rs:1542-1657 | Schemas of primitive kinds admit one another exactly when each kind is among the other's, an integer being a number, and every number within the one's bounds is within the other's, and texts are as long |
| AdmitsExactly.ConstantExactly | crates/clerkenwell-codegen/src/validate.rs:1600-1657 | A constant is admitted exactly when it is one of the other schema's values |
| AdmitsExactly.ListedExactly | crates/clerkenwell-codegen/src/validate.rs:1542-1600 | Enumerated texts are admitted exactly when all are enumerated there, if any are, and those within their own bounds are within the other's |
| AdmitsExactly.RecursiveAdmitted | crates/clerkenwell-codegen/src/validate.rs:1511-1540 | Recursive definitions with other names and other references admit one another |
| Admits.OpenObjectIsRecord | crates/clerkenwell-codegen/src/validate.rs:1469-1506 | Every value of an open object that passes is a record of its other members' values |
| Boxing.ReachesDirectly | crates/clerkenwell-codegen/src/rust.rs:1380-1417 | The search with its shared visited set finds the target exactly when direct containment leads to it |
| Boxing.HoldsExactly | crates/clerkenwell-codegen/src/rust.rs:1380-1417 | What a type holds without an indirection: a reference its definition, an object what its members and its variants' members hold, and arrays and records nothing |
| Boxing.BoxesField | crates/clerkenwell-codegen/src/rust.rs:1422-1438 | A field is boxed exactly when its type directly holds the type the field belongs to |
| Boxing.UnboxedIsAcyclic | crates/clerkenwell-codegen/src/rust.rs:1374-1438 | No generated type holds itself without a box, for every set of mutually recursive definitions |
| Boxing.UnboxedPathsAreShort | crates/clerkenwell-codegen/src/rust.rs:1419-1438 | No chain of unboxed fields is longer than the definitions are many, so every type has a finite size |
| Boxing.BoxedFieldClosesCycle | crates/clerkenwell-codegen/src/rust.rs:1419-1438 | Every boxed field lies on a cycle of direct containment |
| JsonSchemaMeaning.ExportPreservesMeaning | crates/clerkenwell-codegen/src/json_schema.rs:76-137 | A value satisfies a validated schema exactly when it satisfies its JSON Schema |
| JsonSchemaMeaning.UnionPreserved | crates/clerkenwell-codegen/src/json_schema.rs:90-106 | A tagged union is the export's `oneOf`, of which exactly one accepts a value |
| SchemaDocuments.ReachedDefinitions | crates/clerkenwell-codegen/src/json_schema.rs:18-33 | The worklist finds exactly the definitions the schema reaches |
| SchemaDocuments.SchemaDocument | crates/clerkenwell-codegen/src/json_schema.rs:18-44 | The document carries exactly the reachable definitions, every reference in it resolves, and it accepts exactly the definition's values |
| SchemaDocuments.KeepPreservesMeaning | crates/clerkenwell-codegen/src/json_schema.rs:18-44 | A schema means the same with the definitions it does not reach left out |
| SchemaImports.ImportPreservesMeaning | crates/clerkenwell-codegen/src/schema_imports.rs:51-155 | A value satisfies an imported schema that validation passes exactly when it satisfies the JSON Schema it was imported from, a numeric format standing for its range |
| SchemaImports.BoundsImport | crates/clerkenwell-codegen/src/schema_imports.rs:97-127 | The bounds tightened by a format's limits leave exactly the declared bounds and the format's range |
| SchemaImports.UnionImport | crates/clerkenwell-codegen/src/schema_imports.rs:157-239 | Alternatives told apart by their one common tag are the tagged union made of them |
| SchemaImports.VariantImport | crates/clerkenwell-codegen/src/schema_imports.rs:199-230 | A variant means the same with its tag taken out of its members and put beside it |
| SchemaImports.ImportThenExport | crates/clerkenwell-codegen/src/json_schema.rs:76-137 | A JSON Schema imported and exported again accepts the values it did |
| SchemaRoundTrips.ReturnsExactly | crates/clerkenwell-codegen/src/schema_imports.rs:51-155 | What is exported of a validated schema is imported as it was, or so that validation passes it, exactly when there is no tagged union and no opaque JSON in it |
| SchemaRoundTrips.ImportsExactly | crates/clerkenwell-codegen/src/schema_imports.rs:51-155 | And is imported at all exactly when there is no tagged union in it |
| SchemaRoundTrips.UnionReturnsExactly | crates/clerkenwell-codegen/src/schema_imports.rs:157-239 | Without its type, an exported union is imported as it was exactly when no other member is a constant text that every variant requires, and is refused otherwise |
| SchemaRoundTrips.UnionIsRefused | crates/clerkenwell-codegen/src/schema_imports.rs:157-166 | With it, an exported union is refused |
| SchemaRoundTrips.FormatImportsExactly | crates/clerkenwell-codegen/src/schema_imports.rs:97-116 | A primitive schema with a numeric format is imported exactly when it is of integers |
| SchemaRoundTrips.ReferenceImportsExactly | crates/clerkenwell-codegen/src/schema_imports.rs:60-72 | A reference is imported exactly when no keyword stands beside it |
| Samples.BoundedSample | crates/clerkenwell-codegen/src/fixtures.rs:645-672 | Refused exactly when the bounds leave no number, or no integer an i64 holds, and otherwise the one nearest 1 |
| Samples.SampleIsValueExactly | crates/clerkenwell-codegen/src/fixtures.rs:495-640 | Whatever is sampled of a validated schema is one of its values exactly when every tagged union the sampler comes to is sound |
| Samples.SampleIsValue | crates/clerkenwell-codegen/src/fixtures.rs:495-640 | Where all tagged unions are sound, whatever is sampled is a value |
| Samples.UnionSampleExactly | crates/clerkenwell-codegen/src/fixtures.rs:513-590 | A union's sample is a value exactly when it has no constant and requires at most the tag and what its first variant requires, or when its constant is a value of its variants |
| Samples.FreeName | crates/clerkenwell-codegen/src/fixtures.rs:621-625 | The undeclared member's name is none of the declared ones |
| SampleShapes.SampledExactly | crates/clerkenwell-codegen/src/fixtures.rs:495-640 | A validated schema is sampled exactly when every schema the sampler comes to leaves a value: a listed one within the bounds, a number within them, an integer an i64 holds, a text no longer than the limit |
| SampleShapes.ArraySampleHasOneItem | crates/clerkenwell-codegen/src/fixtures.rs:565-570 | An array's sample has one item, a sample of its items' schema |
| SampleShapes.ObjectSampleMembers | crates/clerkenwell-codegen/src/fixtures.rs:593-633 | An object's sample has the members it requires, and, where it is open and its sample extended, one more under a name it does not declare, sampled of the schema for the others |
| SampleShapes.UnionSampleMembers | crates/clerkenwell-codegen/src/fixtures.rs:571-592 | A union's sample has its tag, and the sample of the variant the tag names |
| SampleShapes.UnionExactly | crates/clerkenwell-codegen/src/fixtures.rs:525-538 | A sample of several kinds is of the first that is left a value |
| Samples.DeeperIsSame | crates/clerkenwell-codegen/src/fixtures.rs:495-640 | A deeper limit changes nothing that was sampled or refused |
| Samples.StrayConstantIsNoValue | crates/clerkenwell-codegen/src/fixtures.rs:513-515 | A validated union with a constant whose sample is none of its values |
| Samples.StrayRequirementIsNoValue | crates/clerkenwell-codegen/src/fixtures.rs:571-590 | A validated union that requires a member beside its variants, whose sample is none of its values |
| OrderedObjects.IndexIsOne | crates/clerkenwell-codegen/src/json.rs:31-37 | Two keys are one array index only if they are one key |
| Numbers.IndexExactly | crates/clerkenwell-codegen/src/json.rs:31-37 | A key is an array index exactly when it is how a number below 2^32 - 1 is spelt |
| OrderedObjects.InsertedBuilds | crates/clerkenwell-codegen/src/json.rs:58-77 | An insertion keeps an object what its history of insertions makes: each key once, its last value, indices ascending and then first-insertion order |
| OrderedObjects.OrderedObject.Insert | crates/clerkenwell-codegen/src/json.rs:58-77 | The insertion in place is that insertion |
| OrderedObjects.OrderedObject.Spread | crates/clerkenwell-codegen/src/json.rs:94-98 | A spread inserts every entry of the other object in turn |
| Normalization.NormalFormIsOne | crates/clerkenwell-codegen/src/normalize.rs:88-103 | Documents equal up to key order have one normal form when the collation separates their keys |
| Normalization.SortingIsIdempotent | crates/clerkenwell-codegen/src/normalize.rs:88-103 | Sorting a sorted document changes nothing, under any collation that compares all keys, also one that takes different keys for equal |
| Normalization.SortedIsStable | crates/clerkenwell-codegen/src/normalize.rs:88-103 | Keys already in order, or equal to the collation, keep their order |
| Normalization.SortingKeepsDocument | crates/clerkenwell-codegen/src/normalize.rs:88-103 | A sorted document is the same document up to key order, whatever the collation answers |
| Normalization.SortedObjectOrder | crates/clerkenwell-codegen/src/normalize.rs:88-103 | A sorted object's keys are its array indices ascending, then the rest in the collation's order |
| Numbers.SpeltDenotes | crates/clerkenwell-codegen/src/json.rs:418-441 | Each of the four placements denotes the digits times ten to the n less k |
| Numbers.TextDenotes | crates/clerkenwell-codegen/src/json.rs:399-443 | A number's text denotes it, sign and zero included |
| Numbers.NumberTextIsOne | crates/clerkenwell-codegen/src/json.rs:399-443 | Numbers spelt alike are one number |
| Numbers.PlainExactly | crates/clerkenwell-codegen/src/json.rs:418-441 | A number is written without an exponent exactly when it is at least 10^-6 and less than 10^21 |
| Numbers.PointExactly | crates/clerkenwell-codegen/src/json.rs:418-441 | Without an exponent it has a point exactly when it is not whole |
| Numbers.ExponentForm | crates/clerkenwell-codegen/src/json.rs:426-441 | With one, a single digit stands ahead of the point, the others behind it, and the exponent has its sign |
| JsonReader.StringifiedReads | crates/clerkenwell-codegen/src/json.rs:465-549 | A reader of JSON texts after RFC 8259, written without the printer's escapes and forms, reads a document from its text, compact or with any gap of white space |
| JsonReader.LiteralReads | crates/clerkenwell-codegen/src/json.rs:445-463 | It reads a string from its literal, and leaves what follows |
| JsonReader.NumberReads | crates/clerkenwell-codegen/src/json.rs:399-443 | It reads a number from its text, which is one by the grammar of RFC 8259 |
| JsonReader.EscapesExactly | crates/clerkenwell-codegen/src/json.rs:445-463 | The seven characters with an escape of two characters are written by it, the other control characters by four small hexadecimal digits, and all others as they are |
| JsonReader.LiteralIsOne | crates/clerkenwell-codegen/src/json.rs:445-463 | String literals written alike, whatever follows them, are of one string |
| JsonReader.TextIsOne | crates/clerkenwell-codegen/src/json.rs:465-549 | No two documents have one text, compact or with any gaps of white space |
| Printing.PrettyIsLaidOut | crates/clerkenwell-codegen/src/json.rs:465-549 | The text with a gap is the compact text with, outside strings, a line for each item and member at its depth and a space behind each colon, and the compact text is what is left of it without white space outside strings |
| Printing.Stringify | crates/clerkenwell-codegen/src/json.rs:229-240 | The writers, appending to a buffer, write the document's text |
| Printing.Output.PushValue | crates/clerkenwell-codegen/src/json.rs:465-513 | A value is appended in the form its level and gap demand |
| Printing.Output.PushString | crates/clerkenwell-codegen/src/json.rs:445-463 | A string is appended character by character with its escapes |

## Left out

- RoundTripExactlyWhenStable: is for documents that change no list's identity and no object with `$items` into a list; `StructuredDocumentExact.RoundTripExactly` is for all, with a condition that looks at the store.
- ImmutableKindLeavesValue, ExplicitReplacesUnseen, ImmutableKeepsCreation: say nothing of a text, list or map that the edit and one accepted since its base both wrote, as what two such writes merge to is Loro's.
- PolicyRuns: of a keyed sequence under an explicit or immutable policy of its own, the values inside are followed over runs, judged by that policy as well; the order of its items is not, and only documents whose items have identities of their own are.
- JudgedFieldPaths: tells values apart by the items around them, while the code names them by a text in which identities with brackets and dots can look alike.
- UpdateExactly: asks that items' identities are derived from the names of their containers, or that the order lists name the previous items; `ShownUpdateExactly` needs neither, as they do wherever the containers show the previous document (`ReplicaDocuments.ShownLists`).
- SeedExactly, UpdateExactly: ask that derived revisions stand at the top, that an item's identity is not derived as a revision, that all members are declared, and that null optionals were left out first (`remove_null_optionals`).
- ShutDownCanComplete, EverythingArrives: a run exists; that every fair schedule is one, and that the host's commands return, is not part of the model.
- StringifiedReads: the reader refuses escapes of surrogates, which the printer does not write, and takes strings as characters, not UTF-16 units.
- Sample: the limit on depth stands for recursion that need not end on definitions that require their own values.
- AdmitsIsSound: the other direction does not hold, by design: objects that declare members, unions and kinds that only meet in their values are not admitted. `AdmitsExactly` says which pairs are.
- WriteField: is a function over a field's containers, so the loops over an item's fields and over a sequence's items are comprehensions; the loops over a document's fields are those of `Containers.WriteDocument`.
- DeepSort: deepens the children before it sorts the entries; the sort looks at keys only.
- Export: `oneOf` is an array in no particular order, each schema under the tag it was made for.
- Aliasing of container handles: a child container is a handle of its own, stored back when it has been written.
- Revisions and held tokens of a subscription, authoring sessions beyond their exclusion from patches, and `deliver_change` of stored modifications.
- WebSocket and JSON-RPC framing, task scheduling, encodings and the storage behind the host.
- Loro's merge of concurrent operations, its versions and frontiers, the Myers algorithm, ICU collation and the digits Rust's formatting chooses.
- Container name templates: containers are addressed by field and identities, because string templates can collide for arbitrary identities, and refuse those with an opening brace.
- ImportPreservesMeaning: is about schemas that validation passes after the import, as the import alone lets pass what validation then refuses; keywords outside the allowed list, and unsupported formats, are refused before the model begins.
- `named_entries` and the sections of the normalised document; which definitions an import names.
- Defaults, titles and descriptions of schemas, generated names and their collisions, rendering of Rust and TypeScript, layout, fixtures other than samples.
- `clerkenwell-ops`, refusals, recovery, the registry, transports, the conformance bridge and release tooling.
