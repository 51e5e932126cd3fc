# Inventory engine: storage, layout, money and stock, proved

A Dafny 4.11 model of the parts of the inventory engine that must not go wrong silently, with proofs of what
they promise. `dafny verify dfyconfig.toml` checks all of it.

## What is modelled

**The resource pool.** A private directory holds artifact stores, job documents, one reservation and a quarantine,
under a quota of raw bytes and of files. The model is a class over a disk of names, inodes and contents. Every system
call is one method, and a budget of calls that may run out before any of them stands for a crash at any point. Process
liveness and the clock are arguments. `ResourcePool` follows the source operation by operation; `PoolState` holds the
invariant, `PoolRecovery`, `PoolPublication` and `PoolUpkeep` what each operation does to a disk as functions and
predicates, `LinkAccounting` and `UsageAudit` the accounting by inode, `PoolDocuments` the texts behind the lengths,
`PoolRuns` whole runs, and `PoolGuarantees` what a caller can rely on, in terms of names, clocks and texts alone.

**Write-once publication.** `WriteOnce` is a state machine of any number of publishers that check, write, link, compare
and unlink without a lock, each call a step and each call a possible crash.

**The shared layout.** `Json`, `JsonText`, `JsonReading`, `TreeEdits`, `TreeSelection`, `SharedParts` and `SharedLayout`
model a JSON tree with its canonical text, which determines it, and the transformation that takes large named values
out of it and puts them back.

**The store graph.** `SharedStore` says when a store of documents, chunks and slots is consistent; `SharedArtifacts` is
the class that puts and binds in it, in all three forms; `SharedClients` and `SharedProgress` interleave any number of
clients call by call.

**Landed cost.** Amounts are whole currency units and exact reals in between. `Rounding` has the four modes, `Allocation`
the largest-remainder allocation, `LandedCost` one line, `LaneCharges` a shipment with lane charges, `ChargeOrder` the
irrelevance of orders. `CostMeaning` says each number in terms of amounts, rates and rounding, and `ShipmentMeaning`
which shipments are allocated.

**The weekly transition.** `TargetTransition` is the fixed-point codec with six decimals, `TargetRuns` the week and any
number of weeks.

**Observations, classification, policy.** `ObservationStorage` and `ObservationMeaning` expand compact observations
through an index; `AbcXyz` classifies; `EffectivePolicy` has the derivation of an item policy and the separately written
validator.

Methods with loops are proved equal to a specification function or predicate, and the laws are proved about that. A law
that speaks of meaning (`PoolGuarantees`, `CostMeaning`, `ObservationMeaning`, `EffectivePolicy.ActionIs` and its
neighbours, `AbcXyz.ItemSays`) states the result by names, texts, clocks, amounts and rates, not by the functions that
compute it.

## What the proofs found

* `publish` checks the decoded length against the limit, not the stored one. A frame longer than 128000000 bytes can be
  admitted when it decodes to less; its reservation cannot be read back, and every later operation of the pool fails.
  A payload of at most that length keeps the pool readable; a longer one that is admitted makes it unreadable unless a
  crash comes before its reservation (`PoolUpkeep.LongFrameIsAdmitted`, and the clauses of `Publish`).
* The reserve of four files and of the sum of object, reservation and 4096 bytes covers every crash with room left:
  the worst one takes three files, and object and reservation are never needed together
  (`PoolPublication.WorstPublisherCrash`, `WorstReservationCrash`).
* The switch for excise tax in the tax base has no effect (`LandedCost.NoExcise`).
* Deriving a policy never checks the floor of a VED class, while the validator checks the service level that comes of
  it: the two agree exactly when the floor is within the levels (`EffectivePolicy.DerivedIsValid`).
* The validator does not compare eligibility with the gates: a gated policy that orders by itself can be valid
  (`EffectivePolicy.UngatedIs`, `GatedPolicyIsValid`). A derived one never is (`OrderMeansUngated`).
* A publisher that meets content of a bad size under its name reports a size limit although its own payload is fine
  (`WriteOnce.EveryVerdict`).

## Model

| member | source | states |
|---|---|---|
| `ResourcePool.LocalRobustnessResourcePool.constructor` | src/dsio_inventory_engine/infrastructure/robustness_resource_pool.py:45-72 | An initialised pool holds its policy document and nothing else: the invariant holds and nothing is pending |
| `ResourcePool.LocalRobustnessResourcePool.WriteControl` | src/dsio_inventory_engine/infrastructure/robustness_resource_files.py:104-120 | A control document is replaced whole or not at all; a crash leaves at most one temporary, complete or torn, beside the old state. It refuses exactly when the old document is too long, and takes three calls |
| `ResourcePool.LocalRobustnessResourcePool.Quarantine` | src/dsio_inventory_engine/infrastructure/robustness_resource_pool.py:133-160 | The file goes to quarantine under a record of its name, reserve, content and date. A record left by an earlier attempt is kept if it agrees, and refused otherwise. Every crash leaves the record before the file |
| `ResourcePool.LocalRobustnessResourcePool.Reconcile` | src/dsio_inventory_engine/infrastructure/robustness_resource_pool.py:162-215 | Recovery succeeds exactly when the reservation can be read. It files every interrupted writer and every lapsed job under today's date, keeps the records and objects that were there, and leaves nothing pending. On a settled pool with no lapsed job it changes nothing. It never adds to what the pool is charged, except two records in a crash, and it completes within four calls a file |
| `ResourcePool.LocalRobustnessResourcePool.Usage` | src/dsio_inventory_engine/infrastructure/robustness_resource_pool.py:217-279 | In whatever order the files come, raw and physical usage are the sums over inodes of the largest charge among the links of each. The audit succeeds exactly when every file can be accounted and there are at most 100000 |
| `ResourcePool.LocalRobustnessResourcePool.Admit` | src/dsio_inventory_engine/infrastructure/robustness_resource_pool.py:281-285 | Admits exactly what still fits under the raw limit of an auditable pool |
| `ResourcePool.LocalRobustnessResourcePool.PublishFile` | src/dsio_inventory_engine/infrastructure/robustness_artifacts.py:105-142 | Under the pool lock: the object appears complete or not at all, is never replaced, and its temporary is gone on return. Size and conflict are refused exactly then, with the disk as it was |
| `ResourcePool.LocalRobustnessResourcePool.Publish` | src/dsio_inventory_engine/infrastructure/robustness_resource_pool.py:346-370 | Admission is decided on the recovered disk, exactly. An admitted publication whose payload can be read back never raises; crashed anywhere, it leaves what a recovery will be charged within the quota. A return means the object shows the payload and nothing is pending. A payload longer than the limit is stuck behind an unreadable reservation. All earlier objects stay |
| `ResourcePool.LocalRobustnessResourcePool.StoreRoot` | src/dsio_inventory_engine/infrastructure/robustness_resource_pool.py:80-88 | Makes the store known, in one call, and changes nothing else |
| `ResourcePool.LocalRobustnessResourcePool.Inspect` | src/dsio_inventory_engine/infrastructure/robustness_resource_pool.py:341-344 | Recovers, then answers the audited usage; fails only on an unreadable reservation or too many files |
| `ResourcePool.LocalRobustnessResourcePool.PrepareJob` | src/dsio_inventory_engine/infrastructure/robustness_resource_pool.py:310-324 | A new job is admitted exactly when its arguments and a record fit and four files are left. It then stands in the jobs directory with its owner, deadline and arguments. Nothing changes when the arguments are refused |
| `ResourcePool.LocalRobustnessResourcePool.RetireJob` | src/dsio_inventory_engine/infrastructure/robustness_resource_pool.py:332-339 | A job is retired to quarantine under today's date; other contents are a mismatch, refused exactly then. No object changes |
| `ResourcePool.LocalRobustnessResourcePool.Purge` | src/dsio_inventory_engine/infrastructure/robustness_resource_pool.py:372-392 | On return, exactly the records older than a day, with their files, are gone; wherever it stops, nothing younger is |
| `PoolRuns.Run` | src/dsio_inventory_engine/infrastructure/robustness_resource_pool.py:162-392 | Any run of all operations, each crashed anywhere: the invariant holds, no object is lost or altered, only objects handed in appear, and what recovery will be charged passes the limit by no more than one record a job begun and a record with its temporary a crash. Readability lasts while no frame is longer than the limit |
| `PoolRuns.PublishThenRecover` | src/dsio_inventory_engine/infrastructure/robustness_resource_pool.py:346-370 | An admitted publication crashed anywhere, then one recovery with no job lapsing in between: the audit succeeds within the byte limit and the file limit |
| `PoolPublication.WorstPublisherCrash` | src/dsio_inventory_engine/infrastructure/robustness_resource_pool.py:356-360 | The worst crash of a publisher takes the object, one record and three files of the reserve, exactly |
| `PoolPublication.WorstReservationCrash` | src/dsio_inventory_engine/infrastructure/robustness_resource_pool.py:356-360 | The worst crash before it takes the reservation and one record: the two sums of the slack are never needed together |
| `PoolPublication.StoppedWithinQuota` | src/dsio_inventory_engine/infrastructure/robustness_resource_pool.py:346-370 | From the reservation on, every disk an interrupted publication leaves is consistent, within the quota, and lost nothing |
| `PoolUpkeep.LongFrameIsAdmitted` | src/dsio_inventory_engine/infrastructure/robustness_resource_pool.py:346-370 | A frame longer than 128000000 bytes that decodes to one byte is admitted, and no recovery can read its reservation |
| `PoolState.FallbacksNeverApply` | src/dsio_inventory_engine/infrastructure/robustness_resource_pool.py:162-279 | Every store temporary is covered by the reservation and every quarantined file by its record: the maximal charge is never guessed |
| `PoolState.SettledIsAuditable` | src/dsio_inventory_engine/infrastructure/robustness_resource_pool.py:217-279 | After a recovery every file can be audited |
| `PoolState.UnlinkTemp` | src/dsio_inventory_engine/infrastructure/robustness_resource_pool.py:217-279 | While an object and its temporary are two links of one inode they are charged once |
| `PoolRecovery.RecoveredFiles` | src/dsio_inventory_engine/infrastructure/robustness_resource_pool.py:162-215 | Each file recovery finds is filed, with its reserve and date, and every other file but the reservation stays where it was |
| `PoolRecovery.WorkIsFound` | src/dsio_inventory_engine/infrastructure/robustness_resource_pool.py:162-215 | The four passes find the leftovers of the stores, the root and the quarantine and the lapsed jobs, none of them twice |
| `PoolGuarantees.LeftoversAreFiled` | src/dsio_inventory_engine/infrastructure/robustness_resource_pool.py:162-215 | Every leftover is in quarantine, charged what its writer had reserved or its own bytes, and dated by the clock of this recovery; a record already there keeps its date |
| `PoolGuarantees.LapsedJobsAreFiled` | src/dsio_inventory_engine/infrastructure/robustness_resource_pool.py:200-214 | A job is filed as soon as its owner is dead or its deadline has come |
| `PoolGuarantees.JobIsFiled` | src/dsio_inventory_engine/infrastructure/robustness_resource_pool.py:332-339 | A filed job, lapsed or retired, is in quarantine at its size and date, contents untouched |
| `PoolGuarantees.LivingJobsStay` | src/dsio_inventory_engine/infrastructure/robustness_resource_pool.py:200-214 | A job stays exactly while its owner lives and its deadline has not come |
| `PoolGuarantees.RecoverThenPurge` | src/dsio_inventory_engine/infrastructure/robustness_resource_pool.py:372-392 | What a recovery files survives every purge, complete or crashed, for 86400 seconds; a complete purge after that takes it |
| `PoolGuarantees.CompressedByName` | src/dsio_inventory_engine/infrastructure/robustness_resource_pool.py:116-121 | A name counts as compressed exactly when its text ends in `.gz`, chunks included |
| `PoolGuarantees.ArtifactIsCharged` | src/dsio_inventory_engine/infrastructure/robustness_resource_pool.py:116-121 | A published file is charged the length its frame decodes to if its name ends in `.gz`, otherwise the length it stores |
| `PoolGuarantees.OtherIsCharged` | src/dsio_inventory_engine/infrastructure/robustness_resource_pool.py:233-272 | A quarantined file is charged what its record says; policy, reservation, records, jobs and temporaries the length of their own text or bytes |
| `PoolGuarantees.PhysicalIsStored` | src/dsio_inventory_engine/infrastructure/robustness_resource_pool.py:221-232 | Physical usage counts every inode once, at its stored length |
| `PoolGuarantees.AdmissionAsks` | src/dsio_inventory_engine/infrastructure/robustness_resource_pool.py:346-370 | What an admission asks for in bytes and files: the weight by the name, the text of the reservation, 4096 bytes and four files |
| `PoolGuarantees.JobAdmissionAsks` | src/dsio_inventory_engine/infrastructure/robustness_resource_pool.py:310-324 | What the admission of a job asks for in bytes and files |
| `PoolDocuments.ReservationLength` | src/dsio_inventory_engine/infrastructure/robustness_resource_pool.py:346-370 | The charge of a reservation is the length of its canonical text |
| `PoolDocuments.RecordLength` | src/dsio_inventory_engine/infrastructure/robustness_resource_pool.py:133-160 | The charge of a record is the length of its canonical text |
| `PoolDocuments.PolicyLength` | src/dsio_inventory_engine/inventory_contracts/robustness_resources.py:28-40 | The charge of the policy document is the length of its canonical text |
| `Disk.RecordFits` | src/dsio_inventory_engine/infrastructure/robustness_resource_files.py:64-93 | No quarantine record is longer than the 4096 bytes reserved for it, whatever the name |
| `LinkAccounting.AddLink` | src/dsio_inventory_engine/infrastructure/robustness_resource_pool.py:221-232 | Accounting one more link raises the bill by exactly what it raises the largest charge of its inode by |
| `LinkAccounting.TotalChangesAtOne` | src/dsio_inventory_engine/infrastructure/robustness_resource_pool.py:221-232 | A change at one inode changes the whole bill by the change of that inode |
| `LinkAccounting.RenameLink` | src/dsio_inventory_engine/infrastructure/robustness_resource_pool.py:133-160 | Renaming a link at the same charge is free |
| `LinkAccounting.RemoveLink` | src/dsio_inventory_engine/infrastructure/robustness_resource_pool.py:221-232 | Removing a link never costs, and is free while a link of at least its charge stays |
| `UsageAudit.AuditEnds` | src/dsio_inventory_engine/infrastructure/robustness_resource_pool.py:217-279 | The incremental sums of the loop, once every file was accounted, are the sums over inodes |
| `WriteOnce.VisibleForEver` | src/dsio_inventory_engine/infrastructure/robustness_artifacts.py:105-142 | With any number of publishers interleaved call by call and crashing anywhere, a name once visible shows the same content for ever |
| `WriteOnce.ReturnedMeansPublished` | src/dsio_inventory_engine/infrastructure/robustness_artifacts.py:105-142 | A publisher that returned finds its own payload under its name at every later time |
| `WriteOnce.OnePayloadPerName` | src/dsio_inventory_engine/infrastructure/robustness_artifacts.py:105-142 | Two publishers of different payloads under one name never both return |
| `WriteOnce.ConflictMeansOtherContent` | src/dsio_inventory_engine/infrastructure/robustness_artifacts.py:105-142 | A conflict is reported only against different content |
| `WriteOnce.NoPartIsVisible` | src/dsio_inventory_engine/infrastructure/robustness_artifacts.py:105-142 | What is visible is old content or the complete payload of one of the publishers |
| `WriteOnce.EveryVerdict` | src/dsio_inventory_engine/infrastructure/robustness_artifacts.py:105-142 | With six turns and no crash a publisher returns, reports a conflict or reports a size, each exactly when its payload and the content finally visible say so; racing or repeating identical bytes returns |
| `WriteOnce.SixCallsAreEnough` | src/dsio_inventory_engine/infrastructure/robustness_artifacts.py:105-142 | No publisher waits for another: six calls of its own end it |
| `WriteOnce.NoLitter` | src/dsio_inventory_engine/infrastructure/robustness_artifacts.py:126-142 | Without crashes every new temporary belongs to a publisher still at work |
| `SharedLayout.RestoreAfterPack` | src/dsio_inventory_engine/infrastructure/robustness_shared_layout.py:61-122 | Restoring a packed document gives it back exactly when the length asked for is that of its canonical text, for every object within the size limit that packing accepts |
| `SharedLayout.PackAfterRestore` | src/dsio_inventory_engine/infrastructure/robustness_shared_layout.py:61-122 | Whatever restore accepts is the packing of what it gives: no second layout of a document is ever accepted |
| `SharedLayout.InverseToEachOther` | src/dsio_inventory_engine/infrastructure/robustness_shared_layout.py:61-122 | Restoring is the inverse relation of packing, in both directions |
| `SharedLayout.PackAccepts` | src/dsio_inventory_engine/infrastructure/robustness_shared_layout.py:61-74 | What packing asks of a document: its depth, at most 4096 shared values, each with a reference within the limits |
| `SharedLayout.PredictedIsExact` | src/dsio_inventory_engine/infrastructure/robustness_shared_layout.py:92-106 | The length predicted from the references alone is the length of the restored text, newline included |
| `SharedLayout.Location` | src/dsio_inventory_engine/infrastructure/robustness_shared_layout.py:40-58 | The walk finds a place exactly when the path is well-formed and in the document, and gives what is there |
| `SharedLayout.PackDocument` | src/dsio_inventory_engine/infrastructure/robustness_shared_layout.py:61-74 | The loop that stores values one by one and nulls them computes the packing: all of the values or nothing |
| `SharedLayout.CheckLayout` | src/dsio_inventory_engine/infrastructure/robustness_shared_layout.py:77-106 | A layout is checked before anything is loaded: placeholders, distinct places, references and both lengths, exactly |
| `SharedLayout.LoadValues` | src/dsio_inventory_engine/infrastructure/robustness_shared_layout.py:107-121 | With a cache by hash, every place gets the value its own reference loads, or nothing is returned |
| `SharedLayout.RestoreDocument` | src/dsio_inventory_engine/infrastructure/robustness_shared_layout.py:77-122 | The checking and loading loops compute the restoring that the round-trip lemmas are about |
| `SharedParts.SelectionIsExact` | src/dsio_inventory_engine/infrastructure/robustness_shared_layout.py:24-37 | Exactly the outermost values under a shared name with a text of 512 bytes or more are taken out |
| `SharedParts.SelectedInOrder` | src/dsio_inventory_engine/infrastructure/robustness_shared_layout.py:24-37 | They come in document order |
| `SharedParts.DepthIsLimited` | src/dsio_inventory_engine/infrastructure/robustness_shared_layout.py:24-37 | A document is refused exactly when something outside the shared values lies deeper than 64 |
| `TreeSelection.SelectedAreParts` | src/dsio_inventory_engine/infrastructure/robustness_shared_layout.py:24-37 | No selected place lies inside another, and each holds the value listed for it |
| `TreeEdits.AssignThenUndo` | src/dsio_inventory_engine/infrastructure/robustness_shared_layout.py:61-122 | Filling places that lie apart and then putting back what was there changes nothing |
| `TreeEdits.SizeOfAssign` | src/dsio_inventory_engine/infrastructure/robustness_shared_layout.py:92-106 | Filling places changes the length by the sum of the differences |
| `Json.SetsCommute` | src/dsio_inventory_engine/infrastructure/robustness_shared_layout.py:61-122 | Replacements at places that lie apart commute |
| `JsonText.CanonicalLength` | src/dsio_inventory_engine/inventory_contracts/values.py:22-25 | The compositional size is the number of UTF-8 bytes of the canonical text with its newline: separators, escapes, numbers, `true`, `false` and `null` as printed |
| `JsonReading.CanonicalTextIsUnique` | src/dsio_inventory_engine/inventory_contracts/values.py:22-25 | Two values have the same canonical bytes exactly when they are the same, so a name made from a hash of the text stands for one value |
| `SharedStore.StoreIsFaithful` | src/dsio_inventory_engine/infrastructure/robustness_shared_artifacts.py:72-130 | In a consistent store, storing and loading a shared value undo each other |
| `SharedStore.AddKeepsConsistent` | src/dsio_inventory_engine/infrastructure/robustness_shared_artifacts.py:85-216 | Adding a good file under a free name keeps every reference resolvable |
| `SharedStore.ReadGrows` | src/dsio_inventory_engine/infrastructure/robustness_shared_artifacts.py:184-209 | A readable reference reads the same in every larger store |
| `SharedStore.SharedObjectReads` | src/dsio_inventory_engine/infrastructure/robustness_shared_artifacts.py:132-209 | A visible shared document has all its chunks and reads back to itself |
| `SharedArtifacts.SharedInputRobustnessArtifactStore.Gzip` | src/dsio_inventory_engine/infrastructure/robustness_shared_artifacts.py:72-83 | A frame that is there is used again if it decodes to the text; otherwise the compressor's frame is published, if it is a valid one |
| `SharedArtifacts.SharedInputRobustnessArtifactStore.PutSharedValue` | src/dsio_inventory_engine/infrastructure/robustness_shared_artifacts.py:85-98 | The reference that comes back is the one under which the value is now stored; a stored value is not written again |
| `SharedArtifacts.SharedInputRobustnessArtifactStore.PutSharedValues` | src/dsio_inventory_engine/infrastructure/robustness_shared_artifacts.py:132-182 | All shared values are stored, each equal value once, exactly when all of them can be stored |
| `SharedArtifacts.SharedInputRobustnessArtifactStore.Put` | src/dsio_inventory_engine/infrastructure/robustness_shared_artifacts.py:132-182 | The result of every put, the refused ones included; what comes back reads to the document; a document stored before gets the reference it had, whatever form that has |
| `SharedArtifacts.SharedInputRobustnessArtifactStore.PutDocument` | src/dsio_inventory_engine/infrastructure/robustness_shared_artifacts.py:132-182 | Chunks come before the document that refers to them, so the graph never dangles |
| `SharedArtifacts.SharedInputRobustnessArtifactStore.PutPlainForm` | src/dsio_inventory_engine/infrastructure/robustness_artifacts.py:144-155 | The plain form is stored and reads back |
| `SharedArtifacts.SharedInputRobustnessArtifactStore.PutCompressedForm` | src/dsio_inventory_engine/infrastructure/robustness_compression.py:81-120 | The compressed form is stored unless the plain form is there already; either reads back, through the same store |
| `SharedArtifacts.SharedInputRobustnessArtifactStore.BindSlot` | src/dsio_inventory_engine/infrastructure/robustness_shared_artifacts.py:211-216 | A slot is bound exactly when the document is readable and the slot is free or bound to the same |
| `SharedClients.NothingDangles` | src/dsio_inventory_engine/infrastructure/robustness_shared_artifacts.py:132-227 | At every point of every run of interleaved and crashing puts and binds, slots resolve to readable documents and shared documents have their chunks |
| `SharedClients.ReturnedForEver` | src/dsio_inventory_engine/infrastructure/robustness_shared_artifacts.py:132-227 | What a client got back stays good: the reference reads its document, the slot stays bound to it |
| `SharedClients.OneReferencePerVersion` | src/dsio_inventory_engine/infrastructure/robustness_shared_artifacts.py:72-182 | Clients that put one document get one reference of a version, whatever frames their compressors make |
| `SharedClients.PutAgain` | src/dsio_inventory_engine/infrastructure/robustness_shared_artifacts.py:72-182 | Putting a stored document again returns its reference and changes nothing |
| `SharedClients.ReadsOnlyCanonical` | src/dsio_inventory_engine/infrastructure/robustness_shared_artifacts.py:184-209 | A reference with another length, hash or frame never reads a document |
| `SharedProgress.EveryPutReturns` | src/dsio_inventory_engine/infrastructure/robustness_shared_artifacts.py:132-182 | For one deterministic compressor, a put of a document within the limits returns a reference that reads back, after two turns a shared value and six more, whatever the other clients do or leave undone |
| `SharedProgress.PutsKeepForms` | src/dsio_inventory_engine/infrastructure/robustness_shared_artifacts.py:132-160 | However clients interleave, a document that was plain or compressed at the start comes back in that form, and is not stored again in a newer one |
| `SharedProgress.BindingEnds` | src/dsio_inventory_engine/infrastructure/robustness_shared_artifacts.py:211-227 | A binding ends in three turns; it returns exactly when the slot finally names its document, and fails otherwise |
| `Rounding.RoundIsNearest` | src/dsio_inventory_engine/calculate_landed_cost/application.py:143-148 | What each of the four modes picks, by its definition as a nearest whole number |
| `Rounding.NearestIsOne` | src/dsio_inventory_engine/calculate_landed_cost/application.py:143-148 | That definition leaves one choice |
| `Rounding.MoneyIsNearest` | src/dsio_inventory_engine/calculate_landed_cost/application.py:143-148 | An amount of money is rounded once, to the scale of its currency |
| `Rounding.MoneyIsMonotone` | src/dsio_inventory_engine/calculate_landed_cost/application.py:143-148 | A larger amount is never rounded below a smaller one |
| `Allocation.AllocateFixedCharge` | src/dsio_inventory_engine/calculate_landed_cost/application.py:495-545 | The loops of the allocation accept exactly the stated inputs and give the largest-remainder shares |
| `Allocation.GiveLeftOver` | src/dsio_inventory_engine/calculate_landed_cost/application.py:538-544 | The bumping loop gives one more unit to each of the first lines and to no other |
| `Allocation.SharesAddUp` | src/dsio_inventory_engine/calculate_landed_cost/application.py:495-545 | The shares add up to the whole charge |
| `Allocation.ShareIsClose` | src/dsio_inventory_engine/calculate_landed_cost/application.py:495-545 | Every share is within one unit of its exact quota and never negative |
| `Allocation.QuotaIsProportional` | src/dsio_inventory_engine/calculate_landed_cost/application.py:495-545 | The quota is the charge in proportion to the measure |
| `Allocation.MeasureIs` | src/dsio_inventory_engine/calculate_landed_cost/application.py:495-545 | The measure under each basis is that line's own value, quantity, weight or volume |
| `Allocation.LargestRestsWin` | src/dsio_inventory_engine/calculate_landed_cost/application.py:495-545 | The left-over units go to the largest rests, equal rests by name |
| `Allocation.ZeroFactorZeroShare` | src/dsio_inventory_engine/calculate_landed_cost/application.py:495-545 | A line that measures nothing pays nothing |
| `Allocation.LargerFactorNotLess` | src/dsio_inventory_engine/calculate_landed_cost/application.py:495-545 | A larger measure never pays less |
| `Allocation.LineOrderIsIrrelevant` | src/dsio_inventory_engine/calculate_landed_cost/application.py:495-545 | The order of the lines changes neither the acceptance nor any share |
| `LandedCost.CalculateLandedCost` | src/dsio_inventory_engine/calculate_landed_cost/application.py:372-492 | The appending loops compute the assessment the laws of cost are about, refusals included |
| `LandedCost.HigherValueNeverCheaper` | src/dsio_inventory_engine/calculate_landed_cost/application.py:300-492 | A higher transaction value never lowers customs value, duty, tax, gross or net cost, in any rounding mode and with any clamps |
| `LandedCost.DutyIsMonotone` | src/dsio_inventory_engine/calculate_landed_cost/application.py:300-369 | Duty never falls when the customs value rises, across kinds of duty and clamps |
| `LandedCost.NetWithinGross` | src/dsio_inventory_engine/inventory_contracts/landed_cost_artifact.py:116-138 | Under the contract of shipment charges, net cost lies between zero and gross cost, and customs value within gross cost |
| `LandedCost.NoExcise` | src/dsio_inventory_engine/calculate_landed_cost/application.py:460-464 | No input can be an excise tax, so the switch that would include it in the tax base has no effect |
| `CostMeaning.ConvertedIs` | src/dsio_inventory_engine/calculate_landed_cost/application.py:174-187 | A conversion multiplies by the one quoted rate and rounds once, and fails exactly without one |
| `CostMeaning.ChargeIsShown` | src/dsio_inventory_engine/calculate_landed_cost/application.py:372-492 | Each charge is shown under its type, converted, in the totals it was handed in for |
| `CostMeaning.TransactionIsShown` | src/dsio_inventory_engine/calculate_landed_cost/application.py:372-492 | The transaction is shown converted, in customs value and gross |
| `CostMeaning.DutyIs` | src/dsio_inventory_engine/calculate_landed_cost/application.py:300-369 | Duty is the exact ad valorem, specific or compound amount, held between the bounds, rounded once |
| `CostMeaning.DutyIsShown` | src/dsio_inventory_engine/calculate_landed_cost/application.py:300-369 | A duty is shown under the type that says how it came about |
| `CostMeaning.VatIs` | src/dsio_inventory_engine/calculate_landed_cost/application.py:448-485 | The tax base is the customs value, with the duty if the profile says so |
| `CostMeaning.VatOfBase` | src/dsio_inventory_engine/calculate_landed_cost/application.py:448-485 | Tax is the rate on that base, rounded once |
| `CostMeaning.TotalsAreShown` | src/dsio_inventory_engine/calculate_landed_cost/application.py:372-492 | Customs, gross and recoverable are the sums of the components shown, net is gross without the recoverable |
| `CostMeaning.NothingElseIsShown` | src/dsio_inventory_engine/calculate_landed_cost/application.py:372-492 | Nothing else is shown |
| `CostMeaning.CalculatedOnlyWhenVerified` | src/dsio_inventory_engine/calculate_landed_cost/application.py:190-225 | An answered line is calculated exactly when no decision and no exchange rate is missing |
| `CostMeaning.BlockedStatusIs` | src/dsio_inventory_engine/calculate_landed_cost/application.py:190-225 | Otherwise it names the first decision that is missing: classification, origin, tax, exchange rate, tariff |
| `CostMeaning.CalculatedAccepts` | src/dsio_inventory_engine/calculate_landed_cost/application.py:300-492 | A line is calculated exactly when every decision is verified and every amount, rate, bound and type of charge is in its range |
| `CostMeaning.LaneTotalIs` | src/dsio_inventory_engine/calculate_landed_cost/projection.py:422-496 | A lane charge is its amount held between its bounds, converted, rounded once |
| `CostMeaning.NothingPartial` | src/dsio_inventory_engine/calculate_landed_cost/projection.py:395-506 | A shipment is allocated as a whole: each line is assessed, its own charges as they were |
| `CostMeaning.LaneTotalAccepts` | src/dsio_inventory_engine/calculate_landed_cost/projection.py:422-446 | A lane has a charge exactly when it is an amount for the shipment in a currency that can be exchanged |
| `CostMeaning.LanesAreApart` | src/dsio_inventory_engine/calculate_landed_cost/projection.py:395-425 | No lane repeats another, an exemption or a line's own charge |
| `CostMeaning.CompleteExactly` | src/dsio_inventory_engine/calculate_landed_cost/projection.py:395-420 | A shipment that is not refused is allocated exactly when it has lanes, every line can be calculated by itself, and every type of charge is covered on every line; otherwise no line is |
| `CostMeaning.PartIsProportional` | src/dsio_inventory_engine/calculate_landed_cost/projection.py:447-496 | Each line's final part of a lane charge is the charge in proportion to the line's own customs value before lane charges, quantity, weight or volume, within less than one unit |
| `ShipmentMeaning.ShipmentCompletes` | src/dsio_inventory_engine/calculate_landed_cost/projection.py:296-506 | Exactly which shipments are allocated, by conditions on lanes, lines and measures alone: once the preflight passes and the lines measure something, no lane and no later assessment fails |
| `LaneCharges.CalculateShipment` | src/dsio_inventory_engine/calculate_landed_cost/projection.py:296-506 | The loops over lanes and lines compute the projection; parts are measured by the first assessments, not by later ones |
| `LaneCharges.LaneIsDistributed` | src/dsio_inventory_engine/calculate_landed_cost/projection.py:422-496 | Summed over the final assessments of all lines, each lane charge is exactly its converted and bounded amount |
| `LaneCharges.PartIsChargedExactly` | src/dsio_inventory_engine/calculate_landed_cost/projection.py:422-496 | A part is charged as allocated: rounding it again at the same scale changes nothing |
| `ChargeOrder.LaneOrderIsIrrelevant` | src/dsio_inventory_engine/calculate_landed_cost/projection.py:422-506 | The order of the lanes changes no line's assessment and no acceptance |
| `ChargeOrder.ChargeOrderIsIrrelevant` | src/dsio_inventory_engine/calculate_landed_cost/application.py:372-492 | The order of a line's charges does not change its assessment |
| `TargetTransition.ReadBack` | native/Inventory.Calculation/TargetTransition.cs:11-31 | Every quantity of at most 40 digits is written within the grammar and 48 characters and reads back as itself |
| `TargetTransition.CanonicalIsWritten` | native/Inventory.Calculation/TargetTransition.cs:11-31 | Of all texts of a quantity exactly the canonical one is written |
| `TargetTransition.WrittenOnce` | native/Inventory.Calculation/TargetTransition.cs:26-31 | Two quantities never share a text |
| `TargetTransition.QuantityTexts` | native/Inventory.Calculation/TargetTransition.cs:11-25 | Which texts are quantities: grammar, length and number of digits |
| `TargetTransition.PartsAreQuantity` | native/Inventory.Calculation/TargetTransition.cs:11-20 | A text of a whole part and up to six decimals is read as exactly that number, in millionths |
| `TargetTransition.QuantityHasParts` | native/Inventory.Calculation/TargetTransition.cs:11-20 | No other text is in the grammar |
| `TargetRuns.ServeIs` | native/Inventory.Calculation/TargetTransition.cs:43-48 | The closed forms of closing stock and closing backlog, and the balance of goods and of backlog of one week |
| `TargetRuns.ServedInOrder` | native/Inventory.Calculation/TargetTransition.cs:43-48 | The backlog is served first, then the orders, then the forecast, each as far as the goods last |
| `TargetRuns.NeverBoth` | native/Inventory.Calculation/TargetTransition.cs:43-48 | Stock is left only when everything was served; a backlog only when the stock ran out |
| `TargetRuns.AdvanceAccepts` | native/Inventory.Calculation/TargetTransition.cs:32-59 | A row is advanced exactly when its texts are quantities and its sums have at most 40 digits |
| `TargetRuns.OpeningReadsBack` | native/Inventory.Calculation/TargetTransition.cs:49-59 | The texts of opening stock and backlog read back as their own quantities |
| `TargetRuns.ReceiptsReadBack` | native/Inventory.Calculation/TargetTransition.cs:49-59 | So do those of the receipts |
| `TargetRuns.ServedReadsBack` | native/Inventory.Calculation/TargetTransition.cs:49-59 | So do those of the backlog and the orders served, each its own |
| `TargetRuns.ForecastReadsBack` | native/Inventory.Calculation/TargetTransition.cs:49-59 | So does that of the forecast served |
| `TargetRuns.ShortageReadsBack` | native/Inventory.Calculation/TargetTransition.cs:49-59 | So does that of the forecast left unserved |
| `TargetRuns.CloseReadsBack` | native/Inventory.Calculation/TargetTransition.cs:49-59 | So do those of the closing stock and backlog |
| `TargetRuns.ChainIsRun` | native/Inventory.Calculation/TargetTransition.cs:32-59 | Rows chained through their texts are a run of weeks: no quantity is lost between two rows |
| `TargetRuns.RunConserves` | native/Inventory.Calculation/TargetTransition.cs:43-48 | Over every run goods and backlog are conserved and the reserve is kept |
| `TargetRuns.ServedWithinDemand` | native/Inventory.Calculation/TargetTransition.cs:43-48 | Over every run, served backlog, orders and forecast stay within what was open, ordered and forecast |
| `TargetRuns.MoreSupplyNeverHurts` | native/Inventory.Calculation/TargetTransition.cs:43-48 | More stock or receipts in any weeks never lower a closing stock or raise a backlog, and move the net position by at most what was added |
| `ObservationStorage.SourceItemIndex` | src/dsio_inventory_engine/inventory_contracts/observation_storage.py:29-36 | The grouping loop keeps, for each item, its rows in their order |
| `ObservationStorage.IndexedIsWhole` | src/dsio_inventory_engine/inventory_contracts/observation_storage.py:29-83 | Expanding through the index is expanding against the whole source, for every source, duplicates included |
| `ObservationStorage.ExpandedActionRows` | src/dsio_inventory_engine/inventory_contracts/observation_storage.py:86-96 | All rows are expanded, in order, or none |
| `ObservationStorage.CompactAfterExpand` | src/dsio_inventory_engine/inventory_contracts/observation_storage.py:25-83 | Compacting an expansion gives back the reference |
| `ObservationMeaning.ExpandAccepts` | src/dsio_inventory_engine/inventory_contracts/observation_storage.py:43-83 | A reference is expanded exactly when the source has one applicable policy, one control, one rule and one bucket for it, and demand for every week from there |
| `ObservationMeaning.AuthoritiesAre` | src/dsio_inventory_engine/inventory_contracts/observation_storage.py:43-83 | The expansion holds that policy, control and rule and the shared inputs |
| `ObservationMeaning.ScheduleIs` | src/dsio_inventory_engine/inventory_contracts/observation_storage.py:43-83 | The schedule holds all policies of the item and no other, in order of their periods |
| `ObservationMeaning.FutureOf` | src/dsio_inventory_engine/inventory_contracts/observation_storage.py:43-83 | The calendar runs from the date to its end, and each week shows the last demand row given for it |
| `AbcXyz.Classify` | src/dsio_inventory_engine/classify_inventory/abc_xyz.py:81-401 | The loops over the sorted rows compute the classification, and refuse exactly the inputs that are not accepted |
| `AbcXyz.ShortestPrefix` | src/dsio_inventory_engine/classify_inventory/abc_xyz.py:185-202 | By revenue and name, class A is the shortest prefix that earns the first share, A and B together the shortest that earns the second |
| `AbcXyz.AbcIs` | src/dsio_inventory_engine/classify_inventory/abc_xyz.py:185-202 | The class of the item at a position, by what the items before it earn |
| `AbcXyz.XyzIs` | src/dsio_inventory_engine/classify_inventory/abc_xyz.py:158-226 | The class of an item by the spread of its sums of demand and of squares |
| `AbcXyz.ItemSays` | src/dsio_inventory_engine/classify_inventory/abc_xyz.py:133-401 | An item has a class on an axis exactly when that history is complete, and a segment exactly with both |
| `AbcXyz.SegmentSays` | src/dsio_inventory_engine/classify_inventory/abc_xyz.py:204-233 | The count and the revenue of a segment are those of the items that show it |
| `AbcXyz.ClassifiedAre` | src/dsio_inventory_engine/classify_inventory/abc_xyz.py:204-401 | Classified are the items with both classes |
| `AbcXyz.TotalsAddUp` | src/dsio_inventory_engine/classify_inventory/abc_xyz.py:204-401 | Eligible rows are classified or not; the segments count and earn exactly what the classified rows do |
| `AbcXyz.SegmentsShareOut` | src/dsio_inventory_engine/classify_inventory/abc_xyz.py:204-233 | Every classified row counts in one of the nine segments |
| `AbcXyz.RowOrderIsIrrelevant` | src/dsio_inventory_engine/classify_inventory/abc_xyz.py:81-401 | The order of the rows changes neither acceptance nor result |
| `EffectivePolicy.DerivedIsValid` | src/dsio_inventory_engine/inventory_contracts/effective_policy_v2.py:116-251 | A derived policy passes the separately written validator exactly when the floor of its operational VED class lies within the policy service levels |
| `EffectivePolicy.ShadowIsIrrelevant` | src/dsio_inventory_engine/inventory_contracts/effective_policy_v2.py:283-332 | Shadow results and the configuration hash change nothing but the two configuration hashes |
| `EffectivePolicy.DeriveAccepts` | src/dsio_inventory_engine/inventory_contracts/effective_policy_v2.py:116-389 | A policy is derived exactly from a consistent classification with every effective class configured |
| `EffectivePolicy.ActionIs` | src/dsio_inventory_engine/inventory_contracts/effective_policy_v2.py:467-469 | Blocking beats a review, a review beats an approval, and an item that may not order is blocked |
| `EffectivePolicy.LeadTimeIs` | src/dsio_inventory_engine/inventory_contracts/effective_policy_v2.py:392-464 | The lead time is the quantile by which the class is protected |
| `EffectivePolicy.ApprovalIs` | src/dsio_inventory_engine/inventory_contracts/effective_policy_v2.py:392-464 | The approval level is the one configured for the class |
| `EffectivePolicy.AutomaticIs` | src/dsio_inventory_engine/inventory_contracts/effective_policy_v2.py:116-219 | Only an allowed item with automatic approval is ordered without a person |
| `EffectivePolicy.ServiceLevelIs` | src/dsio_inventory_engine/inventory_contracts/effective_policy_v2.py:335-389 | The service level is that of the cell or the floor, whichever is higher, and says which |
| `EffectivePolicy.GatesAre` | src/dsio_inventory_engine/inventory_contracts/effective_policy_v2.py:489-506 | Every reason for a gate is listed exactly when it holds |
| `EffectivePolicy.OrderMeansUngated` | src/dsio_inventory_engine/inventory_contracts/effective_policy_v2.py:116-219 | A derived policy that orders by itself has no gate |
| `EffectivePolicy.ValidIsDetermined` | src/dsio_inventory_engine/inventory_contracts/effective_policy_v2.py:509-624 | The validator leaves nothing open but the base, the rows and the axes named as unavailable |
| `EffectivePolicy.ValidIsSafe` | src/dsio_inventory_engine/inventory_contracts/effective_policy_v2.py:509-624 | A valid policy orders by itself only if its rows allow it and its approval is automatic |
| `EffectivePolicy.UngatedIs` | src/dsio_inventory_engine/inventory_contracts/effective_policy_v2.py:509-624 | A valid policy that orders by itself is free of gates exactly when no axis is named and its strategy is the mathematical one: the validator does not tie eligibility to the gates |
| `EffectivePolicy.GatedPolicyIsValid` | src/dsio_inventory_engine/inventory_contracts/effective_policy_v2.py:509-624 | A policy gated for its strategy that still orders by itself is valid |
| `EffectivePolicy.BuildProjection` | src/dsio_inventory_engine/inventory_contracts/effective_policy_v2.py:392-438 | The loop over the axes builds the rows in axis order, or stops at the first class that is not configured |

## Left out

- PoolRuns.PublishThenRecover: asks for a payload of at most 128000000 bytes and for no job lapsing in between, because
  the source admits longer frames that no recovery can read, and an admission reserves nothing for jobs that end meanwhile.
- SharedProgress.EveryPutReturns: asks for clients that share one deterministic compressor, because a document's frame is
  compared byte by byte and two different compressors can make a client fail; and for a document whose layout fits whatever
  the references are, because their lengths depend on the frames.
- PoolRuns.Run: the bound on what recovery will be charged grows with jobs begun and with crashes, because neither is
  reserved for by the source.
- I/O errors other than a crash, and a full file system.
- Symbolic links, permissions, file kinds, `fsync` ordering and the lock itself: calls take effect in order and the pool lock excludes.
- Foreign or malformed file names: the names in a pool directory are a datatype, so the refusals of other names do not arise.
- The cache of decoded sizes by inode, which only saves work.
- The first initialisation of a pool; a pool starts with its policy in place.
- A clock or a process that changes within one recovery: liveness and clocks are read once for each recovery.
- Hashing, compression and JSON parsing: a hash is the value it stands for (its text determines it, `JsonReading`), a
  frame is bytes together with what they decode to, and object keys are kept in the order of the canonical text.
- The temporary files of a publication in `SharedClients`, where it is one step; `WriteOnce` has the steps.
- Which of several violations is reported first when packing or restoring, and chunks stored before a depth is found too great.
- The text and the length limit of slot keys.
- Rounding and range checks of `Decimal` contexts in intermediate divisions: intermediates are exact.
- Source-status checks, closed shapes and fixed contract constants of requests, shipments, policies and observations.
- Resolving tariff, tax and exchange records by date and place; a request carries the resolved ones.
- The sorted listing of components: an assessment maps each type to its component.
- Combined reason codes and VED annotations of classified items, and the decimal texts of shares.
- Hash texts of policies; a policy hash is the value it is taken of.
- Demand models, policy search, training, benchmarks, databases, HTTP and command-line programs.
