# Construction operations manager — verified model of the core

The modelled system is a single-page application for a contractor, plus a small server. It keeps:

- **operations (contracts):** each has line items with an execution percentage, deductions, guarantee checks and letters, warranty certificates and received payments;
- **clients:** each with a list of contacts.

From those it derives:

- the executed value and the deductions;
- the net amount, the amount still due and the payment status of each operation;
- the figures on the dashboard and in the reports;
- the guarantee, warranty and payment screens, with their search and filters.

This project models that core in Dafny and proves properties of the model. There is one module per source file:

| module | source file | form |
|---|---|---|
| `Calculations` | src/utils/calculations.ts | functions and lemmas |
| `OperationForm` | src/components/Operations/EditOperationForm.tsx | class `OperationEditor` over pure list edits |
| `Clients` | src/components/Clients/ClientsManager.tsx | classes `Contact` and `ContactsEditor` (contacts are mutated in place), pure search and submit |
| `Database` | src/utils/database.ts | class `LocalStore` (two tables as maps), pure hooks, import mapping, search and statistics |
| `App` | src/App.tsx | dashboard aggregates, status recomputation, guarded client deletion |
| `Reports` | src/components/Reports/ReportsManager.tsx | filter, summary, per-client table, counts, rates |
| `OperationDetails` | src/components/Operations/OperationDetails.tsx | status badge, remaining amount, breakdowns, collection rate |
| `OperationsList` | src/components/Operations/OperationsList.tsx | client lookup, basic and advanced filters, remaining cell |
| `Guarantees` | src/components/Guarantees/GuaranteesManager.tsx | flattening, expiry, badge, filters, cards |
| `Warranties` | src/components/Warranties/WarrantiesManager.tsx | flattening, status, filter, cards, submit and delete handlers |
| `Checks` | src/components/Checks/ChecksManager.tsx | payment rows, status filter and badge, filters, summary |
| `Sales` | src/components/Sales/SalesOpportunities.tsx | class `SalesBoard`, stage labels, filter, submit and archive |
| `Auth` | src/contexts/AuthContext.tsx | built-in accounts, token, class `AuthState` with login and logout, role checks |
| `Middleware` | server/middleware/auth.js | bearer token extraction, authentication decision, role and department guards |

There are also two shared modules:

- `Domain` holds the records of src/types/index.ts as datatypes. It also has `Option`, `Result`, `Choice` (the "all" selector of the screens) and the generic filter and count lemmas.
- `Text` models the JavaScript string operations the core uses: ASCII `toLowerCase`, `includes`, `trim`, decimal rendering and `padStart`.

Modelling conventions:

- **Money and percentages** are `real`, so arithmetic is exact. The tolerance of the status ladder is exactly 1/100.
- **Dates** are integer millisecond timestamps. The current time (`now`), fresh ids and the user's confirmation are parameters.
- **Folds:** `reduce` from the left is modelled by recursion that peels the last element.

## Model

| member | source | states |
|---|---|---|
| Calculations.ItemTotal | src/utils/calculations.ts:3-5 | executed value of an item lies between 0 and its amount when the figures are in range; equals the amount at 100%; is 0 at 0% or amount 0 |
| Calculations.OperationTotal | src/utils/calculations.ts:7-9 | definition only (the amount `reduce`); properties in Calculations.OperationTotalAppend, Calculations.ExecutedWithinContract and OperationForm.PositiveAmountsPositiveTotal |
| Calculations.ExecutedTotal | src/utils/calculations.ts:11-13 | definition only (the `calculateItemTotal` `reduce`); properties in Calculations.ExecutedTotalAppend, Calculations.ExecutedWithinContract and Calculations.FullyExecutedIff |
| Calculations.DeductionAmount | src/utils/calculations.ts:17-23 | one step of the deductions `reduce`: an inactive deduction takes nothing; its other cases are stated in closed form by Calculations.DeductionsDecompose |
| Calculations.Deductions | src/utils/calculations.ts:15-25 | definition only (the deductions `reduce`); properties in Calculations.DeductionsAppend, Calculations.DeductionsRemoveAt, Calculations.DeductionsOrderIndependent and Calculations.DeductionsDecompose |
| Calculations.TotalDeductions | src/utils/calculations.ts:40-43 | the deductions taken on the executed total; nothing when no deduction is active; tied to the net amount by Calculations.NetAmount |
| Calculations.NetAmount | src/utils/calculations.ts:27-31 | net amount plus the deductions total is exactly the executed total (no clamping) |
| Calculations.NetDue | src/utils/calculations.ts:34-37 | amount due is executed total less deductions less amount received |
| Calculations.OverallExecutionPercentage | src/utils/calculations.ts:45-52 | 0 for no items or a non-positive contract total; otherwise percentage times contract total equals executed total times 100 |
| Calculations.OperationStatus | src/utils/calculations.ts:55-90 | each of the five statuses is characterised by its own condition on the cached percentage and paid = received + deductions against the total ± 0.01 (five if-and-only-ifs) |
| Calculations.ItemCode | src/utils/calculations.ts:99-101 | the code starts with the operation code and a dash and has at least three more characters |
| Calculations.ItemCodeDecodes | src/utils/calculations.ts:99-101 | the 1-based position can be read back from the suffix of the item code |
| Calculations.ItemCodeInjective | src/utils/calculations.ts:99-101 | different positions get different item codes |
| Calculations.OperationTotalAppend | src/utils/calculations.ts:7-9 | the contract total of a concatenation is the sum of the totals |
| Calculations.ExecutedTotalAppend | src/utils/calculations.ts:11-13 | the executed total of a concatenation is the sum of the totals |
| Calculations.ExecutedWithinContract | src/utils/calculations.ts:7-13 | with amounts ≥ 0 and percentages in [0,100], 0 ≤ executed total ≤ contract total |
| Calculations.FullyExecutedIff | src/utils/calculations.ts:7-13 | executed total equals contract total exactly when every item with a positive amount is at 100% |
| Calculations.ItemTotalFull | src/utils/calculations.ts:3-5 | an item's executed value equals its amount exactly when the amount is 0 or the percentage is 100 |
| Calculations.PercentageInRange | src/utils/calculations.ts:45-52 | the overall percentage lies in [0, 100] under the range assumptions |
| Calculations.PercentageCompleteIff | src/utils/calculations.ts:45-52 | the overall percentage is 100 exactly when the contract total is positive and every item is fully executed |
| Calculations.DeductionsAppend | src/utils/calculations.ts:15-25 | the deductions of a concatenated list add up |
| Calculations.DeductionsRemoveAt | src/utils/calculations.ts:15-25 | removing one deduction removes exactly its own amount from the total |
| Calculations.MultisetRemoveAt | src/utils/calculations.ts:15-25 | removing matching elements from two permuted lists leaves permuted lists (helper for order independence) |
| Calculations.DeductionsOrderIndependent | src/utils/calculations.ts:15-25 | the deductions total depends only on the multiset of deductions, not their order |
| Calculations.DeductionsDecompose | src/utils/calculations.ts:15-25 | deductions = executed × (active percentage points) / 100 + active fixed amounts |
| Calculations.NoActiveDeductions | src/utils/calculations.ts:27-43 | with no active deduction the deductions total is 0 and net amount equals executed total |
| Calculations.NoActiveDeductionsSum | src/utils/calculations.ts:15-25 | inactive deductions contribute nothing |
| Calculations.SinglePercentageDeduction | src/utils/calculations.ts:15-25 | one active p% deduction takes exactly p% of the executed total |
| Calculations.NetAmountCanBeNegative | src/utils/calculations.ts:27-37 | a fixed deduction above the executed value makes the net amount, and the amount due, negative |
| Calculations.EmptyOperationInProgress | src/utils/calculations.ts:45-63 | an operation without items whose cached percentage was computed from them is in progress |
| Calculations.StatusBoundaries | src/utils/calculations.ts:62-86 | at 100% on a total of 1000: received 999.995 and 1000.01 are full payment, 1000.02 overpaid, 500 partial, 0 completed |
| Calculations.WorkedExample | src/utils/calculations.ts:3-90 | items 600 at 100% and 400 at 50% with a 10% deduction: total 1000, executed 800, deductions 80, net 720, 80%, in progress |
| Calculations.WorkedExampleCompleted | src/utils/calculations.ts:3-90 | the same with the second item at 100% and 300 received: executed 1000, deductions 100, 100%, partial payment |
| Calculations.WorkedExampleTotals | src/utils/calculations.ts:7-13 | totals of the scenario's item list for any percentage of its second item |
| OperationForm.RemoveAt | src/components/Operations/EditOperationForm.tsx:105-107 | `filter((_, i) => i !== index)`: out of range gives the list back; otherwise one shorter, elements before kept, elements after shifted down |
| OperationForm.RemoveAtMultiset | src/components/Operations/EditOperationForm.tsx:105-107 | removal takes exactly the removed element out of the multiset of the list |
| OperationForm.SetItemField | src/components/Operations/EditOperationForm.tsx:71-75 | the edited field (description, amount, percentage, contract number or date) takes the given value; every other field, id, code and date included, keeps its old value |
| OperationForm.AppendBlankItem | src/components/Operations/EditOperationForm.tsx:59-69 | one blank item appended with the code of the next position, amount and percentage 0 |
| OperationForm.UpdateItemField | src/components/Operations/EditOperationForm.tsx:71-75 | only the item at the index changes, by that field |
| OperationForm.Recode | src/components/Operations/EditOperationForm.tsx:80-84 | every item gets the code of its own position and nothing else changes |
| OperationForm.RemoveItemRecoded | src/components/Operations/EditOperationForm.tsx:77-86 | refused for at most one item; otherwise one item dropped, the rest kept in order and re-coded by position; an index past the end drops nothing and re-codes every item |
| OperationForm.RemoveItemCodesDistinct | src/components/Operations/EditOperationForm.tsx:77-86 | after a removal the item codes are pairwise distinct |
| OperationForm.TotalsOnlyReadFigures | src/utils/calculations.ts:7-13 | the totals depend only on the items' amounts and percentages, position by position |
| OperationForm.OperationTotalRecode | src/components/Operations/EditOperationForm.tsx:80-84 | re-coding changes neither total |
| OperationForm.TotalsRemoveAt | src/components/Operations/EditOperationForm.tsx:77-86 | removing an item takes exactly its amount and executed value out of the totals |
| OperationForm.RemoveItemTotal | src/components/Operations/EditOperationForm.tsx:77-86 | an allowed removal lowers the contract total by the item's amount |
| OperationForm.AddItemKeepsTotals | src/components/Operations/EditOperationForm.tsx:59-69 | adding a blank item changes neither total |
| OperationForm.UpdateItemTotal | src/components/Operations/EditOperationForm.tsx:71-75 | an edit changes the contract total by the difference of old and new amount |
| OperationForm.SetDeductionField | src/components/Operations/EditOperationForm.tsx:88-92 | the edited field (name, type, value or active flag) takes the given value; the id and every other field keep their old values |
| OperationForm.AppendBlankDeduction | src/components/Operations/EditOperationForm.tsx:94-103 | an active 0% percentage deduction is appended |
| OperationForm.UpdateDeductionField | src/components/Operations/EditOperationForm.tsx:88-92 | only the deduction at the index changes |
| OperationForm.AddDeductionKeepsTotal | src/components/Operations/EditOperationForm.tsx:94-103 | a new deduction takes nothing, whatever the executed total |
| OperationForm.DeactivateDeduction | src/components/Operations/EditOperationForm.tsx:88-92 | switching a deduction off removes exactly its amount from the total |
| OperationForm.SetCheckField | src/components/Operations/EditOperationForm.tsx:128-132 | the edited field takes the given value; the id, the link to the operation or item and every other field keep their old values |
| OperationForm.AppendBlankCheck | src/components/Operations/EditOperationForm.tsx:109-126 | an unreturned operation-level check of 0 dated today with the given expiry is appended |
| OperationForm.UpdateCheckField | src/components/Operations/EditOperationForm.tsx:128-132 | only the check at the index changes |
| OperationForm.ReturnCheckOutstanding | src/components/Operations/EditOperationForm.tsx:128-132 | only an edit of the return flag changes the number of outstanding checks; returning an outstanding check lowers it by one |
| OperationForm.SetLetterField | src/components/Operations/EditOperationForm.tsx:157-161 | the edited field takes the given value; the id, the renewals, the item link and every other field keep their old values |
| OperationForm.AppendBlankLetter | src/components/Operations/EditOperationForm.tsx:138-155 | an unreturned operation-level letter of 0 without renewals is appended |
| OperationForm.UpdateLetterField | src/components/Operations/EditOperationForm.tsx:157-161 | only the letter at the index changes |
| OperationForm.ReturnLetterOutstanding | src/components/Operations/EditOperationForm.tsx:157-161 | only an edit of the return flag changes the number of outstanding letters; returning an outstanding letter lowers it by one |
| OperationForm.SetPaymentField | src/components/Operations/EditOperationForm.tsx:177-181 | the edited field (type, amount, date, check number, bank, receipt date or notes) takes the given value; the id and every other field keep their old values |
| OperationForm.AppendBlankPayment | src/components/Operations/EditOperationForm.tsx:167-175 | a cash payment of 0 dated now without a receipt date is appended |
| OperationForm.UpdatePaymentField | src/components/Operations/EditOperationForm.tsx:177-181 | only the payment at the index changes |
| OperationForm.UpdatePaymentTotal | src/components/Operations/EditOperationForm.tsx:177-181 | an edit changes the received total saved by the submit by the difference of old and new amount, and any other field leaves it unchanged |
| OperationForm.TotalReceived | src/components/Operations/EditOperationForm.tsx:202 | definition only (the payments `reduce`); properties in OperationForm.TotalReceivedSplit, OperationForm.UpdatePaymentTotal and OperationForm.AddReceivedPaymentKeepsTotal |
| OperationForm.TotalReceivedSplit | src/components/Operations/EditOperationForm.tsx:202 | the received total counts every payment: it is the sum over the payments matching any predicate plus the rest |
| OperationForm.AddReceivedPaymentKeepsTotal | src/components/Operations/EditOperationForm.tsx:167-175 | a new payment of 0 leaves the received total unchanged |
| OperationForm.Submit | src/components/Operations/EditOperationForm.tsx:187-231 | refused exactly when client or name is empty or some item lacks a description or a positive amount; otherwise the edited operation with recomputed totals and a status computed over the previous contract total |
| OperationForm.PositiveAmountsPositiveTotal | src/utils/calculations.ts:7-9 | positive amounts sum to a positive total |
| OperationForm.ValidItemsPositiveTotal | src/components/Operations/EditOperationForm.tsx:194-201 | the items of an accepted submission have a positive total, so the percentage is a true ratio |
| OperationForm.SubmitStatusUsesPreviousTotal | src/components/Operations/EditOperationForm.tsx:205-211 | the form's status can disagree with its own saved figures (overpaid against a stale total of 100, full payment against the new 1000) |
| OperationForm.OperationEditor.constructor | src/components/Operations/EditOperationForm.tsx:14-57 | every list and basic field starts from the edited operation |
| OperationForm.OperationEditor.SetClient | src/components/Operations/EditOperationForm.tsx:286 | the client selector sets the client id and no other field |
| OperationForm.OperationEditor.SetName | src/components/Operations/EditOperationForm.tsx:306 | the name input sets the name and no other field |
| OperationForm.OperationEditor.AddItem | src/components/Operations/EditOperationForm.tsx:59-69 | the items become AppendBlankItem of the old items; nothing else changes |
| OperationForm.OperationEditor.UpdateItem | src/components/Operations/EditOperationForm.tsx:71-75 | the items become UpdateItemField of the old items |
| OperationForm.OperationEditor.RemoveItem | src/components/Operations/EditOperationForm.tsx:77-86 | the items become RemoveItemRecoded of the old items |
| OperationForm.OperationEditor.AddDeduction | src/components/Operations/EditOperationForm.tsx:94-103 | the deductions become AppendBlankDeduction of the old ones |
| OperationForm.OperationEditor.UpdateDeduction | src/components/Operations/EditOperationForm.tsx:88-92 | the deductions become UpdateDeductionField of the old ones |
| OperationForm.OperationEditor.RemoveDeduction | src/components/Operations/EditOperationForm.tsx:105-107 | the deductions become RemoveAt of the old ones |
| OperationForm.OperationEditor.AddGuaranteeCheck | src/components/Operations/EditOperationForm.tsx:109-126 | the checks become AppendBlankCheck of the old ones |
| OperationForm.OperationEditor.UpdateGuaranteeCheck | src/components/Operations/EditOperationForm.tsx:128-132 | the checks become UpdateCheckField of the old ones |
| OperationForm.OperationEditor.RemoveGuaranteeCheck | src/components/Operations/EditOperationForm.tsx:134-136 | the checks become RemoveAt of the old ones |
| OperationForm.OperationEditor.AddGuaranteeLetter | src/components/Operations/EditOperationForm.tsx:138-155 | the letters become AppendBlankLetter of the old ones |
| OperationForm.OperationEditor.UpdateGuaranteeLetter | src/components/Operations/EditOperationForm.tsx:157-161 | the letters become UpdateLetterField of the old ones |
| OperationForm.OperationEditor.RemoveGuaranteeLetter | src/components/Operations/EditOperationForm.tsx:163-165 | the letters become RemoveAt of the old ones |
| OperationForm.OperationEditor.AddReceivedPayment | src/components/Operations/EditOperationForm.tsx:167-175 | the payments become AppendBlankPayment of the old ones |
| OperationForm.OperationEditor.UpdateReceivedPayment | src/components/Operations/EditOperationForm.tsx:177-181 | the payments become UpdatePaymentField of the old ones |
| OperationForm.OperationEditor.RemoveReceivedPayment | src/components/Operations/EditOperationForm.tsx:183-185 | the payments become RemoveAt of the old ones |
| OperationForm.OperationEditor.HandleSubmit | src/components/Operations/EditOperationForm.tsx:187-231 | returns Submit of the form's current state |
| Clients.MainCountZero | src/components/Clients/ClientsManager.tsx:60-83 | no main contact exactly when the count of main contacts is 0 |
| Clients.AtMostOneMainCount | src/components/Clients/ClientsManager.tsx:60-83 | "no two main contacts" is the same as "at most one counted" |
| Clients.AddContactView | src/components/Clients/ClientsManager.tsx:47-58 | one contact appended; it is the main contact exactly when the list was empty |
| Clients.SetContactField | src/components/Clients/ClientsManager.tsx:60-62 | the edited field (name, position, department, phone, email or main flag) takes the given value; the id and every other field keep their old values |
| Clients.UpdateContactView | src/components/Clients/ClientsManager.tsx:60-74 | the edited contact changes by the field; setting the main flag to true clears every other contact's flag |
| Clients.RemoveContactView | src/components/Clients/ClientsManager.tsx:76-83 | the contact leaves the list; the first remaining one becomes main if the removed one was |
| Clients.AddKeepsAtMostOne | src/components/Clients/ClientsManager.tsx:47-58 | adding keeps at most one main contact; adding to an empty list gives exactly one |
| Clients.SetMainLeavesOnlyOne | src/components/Clients/ClientsManager.tsx:64-71 | after setting a main contact it is the only one |
| Clients.UpdateKeepsAtMostOne | src/components/Clients/ClientsManager.tsx:60-74 | every edit keeps at most one main contact |
| Clients.ClearingMainLeavesNone | src/components/Clients/ClientsManager.tsx:60-74 | clearing the flag of the only main contact leaves none |
| Clients.RemoveKeepsAtMostOne | src/components/Clients/ClientsManager.tsx:76-83 | removing keeps at most one main contact |
| Clients.RemoveKeepsExactlyOne | src/components/Clients/ClientsManager.tsx:76-83 | removing from two or more keeps exactly one main contact |
| Clients.Contact.constructor | src/components/Clients/ClientsManager.tsx:48-56 | a contact object holds exactly the given values |
| Clients.ViewOf | src/components/Clients/ClientsManager.tsx:30 | the values of a list of contact objects, position by position |
| Clients.ContactsEditor.constructor | src/components/Clients/ClientsManager.tsx:30 | the contact list starts empty |
| Clients.ContactsEditor.Load | src/components/Clients/ClientsManager.tsx:119 | the editor takes the given contact objects without copying them |
| Clients.ContactsEditor.AddContact | src/components/Clients/ClientsManager.tsx:47-58 | a fresh contact object appended; the values become AddContactView of the old ones |
| Clients.ContactsEditor.UpdateContact | src/components/Clients/ClientsManager.tsx:60-74 | the edited slot holds a fresh copy, the other objects stay in place and are cleared in place when a main contact is set; the values become UpdateContactView |
| Clients.ContactsEditor.ClearMainExcept | src/components/Clients/ClientsManager.tsx:65-71 | the `forEach` loop: every contact object but the kept one loses its main flag in place, the kept one is untouched |
| Clients.ContactsEditor.ReplaceAt | src/components/Clients/ClientsManager.tsx:61-62 | the copied list with slot `index` holding the new object: the other objects and their values are unchanged and no object appears twice |
| Clients.ContactsEditor.RemoveContact | src/components/Clients/ClientsManager.tsx:76-83 | the object leaves the list and the new first object is made main in place; the values become RemoveContactView |
| Clients.ContactsEditor.MakeFirstMain | src/components/Clients/ClientsManager.tsx:79-81 | the first contact object is made main in place; every other value in the list is unchanged |
| Clients.ContactsEditor.Reset | src/components/Clients/ClientsManager.tsx:39-45 | the contact list is emptied |
| Clients.FilterClients | src/components/Clients/ClientsManager.tsx:33-37 | a client is listed exactly when its name or email contains the term ignoring case, or its phone contains it as typed |
| Clients.EmptySearchKeepsAll | src/components/Clients/ClientsManager.tsx:33-37 | an empty search lists every client in order |
| Clients.SubmitClient | src/components/Clients/ClientsManager.tsx:85-108 | an edit keeps id and creation date; a new client gets the fresh id and now; both take the form's texts and the contacts |
| Clients.EditUnchangedRoundTrip | src/components/Clients/ClientsManager.tsx:85-121 | opening a client and saving it untouched changes only its update time |
| Database.DefaultRelatedTo | src/utils/database.ts:47-55 | a missing link defaults to the operation; a present one is kept |
| Database.NormalizeClient | src/utils/database.ts:186-190 | type defaults to owner, contacts to an empty list, all else kept |
| Database.NormalizeOperation | src/utils/database.ts:198-210 | warranty list defaults to empty; every check and letter gets a link, kept when present; all else kept |
| Database.CreatingClient | src/utils/database.ts:63-74 | both time stamps become now, with the same defaults as the import mapping |
| Database.CreatingOperation | src/utils/database.ts:38-57 | both time stamps become now, with the same defaults as the import mapping |
| Database.NormalizeIdempotent | src/utils/database.ts:38-74 | normalising twice is normalising once, so the import mapping followed by the hook is the hook alone |
| Database.ClientsById | src/utils/database.ts:194-195 | the table's keys are exactly the ids of the list and each record sits under its own id |
| Database.OperationsById | src/utils/database.ts:213-214 | the same for operations |
| Database.ClientsByIdHolds | src/utils/database.ts:194-195 | with distinct ids every client of the list is in the table as given |
| Database.OperationsByIdHolds | src/utils/database.ts:213-214 | with distinct ids every operation of the list is in the table as given |
| Database.DeleteClientResult | src/utils/database.ts:140-147 | deletion goes ahead exactly when no operation references the client; refused leaves the table, done removes only that key |
| Database.LocalStore.constructor | src/utils/database.ts:5-35 | both tables start empty |
| Database.LocalStore.AddOperation | src/utils/database.ts:96-98 | a repeated id is refused with the table unchanged; otherwise the hook's record is stored under its id |
| Database.LocalStore.AddClient | src/utils/database.ts:132-134 | a repeated id is refused with the table unchanged; otherwise the hook's record is stored under its id |
| Database.LocalStore.DeleteClient | src/utils/database.ts:140-147 | fails exactly when an operation references the client; the clients table becomes DeleteClientResult |
| Database.LocalStore.ImportData | src/utils/database.ts:182-215 | fails exactly when an imported list repeats an id, leaving both tables; otherwise each present list replaces its table |
| Database.ImportedClientsContents | src/utils/database.ts:184-195 | after import the clients table holds exactly the imported ids, each normalised and stamped now; no list keeps the table |
| Database.ImportedOperationsContents | src/utils/database.ts:197-214 | the same for operations |
| Database.AdvancedSearch | src/utils/database.ts:250-295 | an operation is returned exactly when it passes every filter given (client, status, inclusive date and amount bounds, name or code ignoring case) |
| Database.NoFiltersReturnAll | src/utils/database.ts:250-295 | without filters every operation is returned in order |
| Database.BoundsInclusive | src/utils/database.ts:269-283 | the date and amount bounds are inclusive |
| Database.GetStatistics | src/utils/database.ts:218-247 | the total is the operation count; operations with status exactly `completed`, exactly `in_progress`, and in one of the payment states (partial, full, overpaid) partition it; the client count is the number of clients |
| Database.CountWhereSplitBound | src/utils/database.ts:225-226 | the two status counts and the payment-state count together are the list length |
| App.StatisticsVersusDashboard | src/utils/database.ts:218-246 | the stored statistics agree with the dashboard's on the total, in-progress count and every sum; the dashboard's completed count exceeds the stored one by exactly the operations completed with partial or full payment |
| App.GetDashboardStats | src/App.tsx:72-100 | the total is the operation count and the completed and in-progress counts together never exceed it; the other figures in App.StatusCountsPartition, App.DeductionsPlusNetIsExecuted, App.OutstandingWithinGuarantees and App.StatisticsVersusDashboard |
| App.StatusCountsPartition | src/App.tsx:73-79 | every operation is counted as completed, in progress or overpaid, exactly once |
| App.OverpaidNotCompleted | src/App.tsx:74-78 | with an overpaid operation the dashboard's completed and in-progress counts fall short of the total |
| App.OverpaidCountPositive | src/App.tsx:74-78 | an overpaid operation in the list makes the overpaid count positive |
| App.DeductionsPlusNetIsExecuted | src/App.tsx:81-82 | dashboard deductions plus net amounts equal the executed value of all operations |
| App.OutstandingWithinGuarantees | src/App.tsx:84-87 | unreturned guarantees never exceed all guarantees |
| App.CountWhereAtMostLength | src/App.tsx:84-90 | a filtered count never exceeds the list length |
| App.ActiveWarrantiesIgnoreDates | src/App.tsx:88-90 | the active warranty count reads only the active flags, not end dates |
| App.SameFlagsSameCount | src/App.tsx:88-90 | lists with the same active flags have the same active count |
| App.HandleUpdateOperation | src/App.tsx:118-126 | the stored record is the incoming one with its status recomputed from its own figures and the update time set |
| App.UpdatedStatusConsistent | src/App.tsx:118-126 | the stored status is the status of the stored figures, whatever came in |
| App.EditedOperationStoredStatus | src/App.tsx:118-126 | after an edit form save, the stored total is the new items' total and the stored status agrees with it |
| App.DeleteClientDecision | src/App.tsx:185-204 | blocked exactly when a loaded operation references the client; deleted exactly when confirmed and unreferenced |
| App.HandleDeleteClient | src/App.tsx:185-204 | the store changes only when deleted, and then as DeleteClientResult; operations never change |
| Reports.FilteredOperations | src/components/Reports/ReportsManager.tsx:38-50 | an operation is kept exactly when it matches the client choice and lies within the inclusive date bounds |
| Reports.UnfilteredReportKeepsAll | src/components/Reports/ReportsManager.tsx:38-50 | all clients and no dates keep every operation in order |
| Reports.DateBoundsInclusive | src/components/Reports/ReportsManager.tsx:41-47 | both date bounds are inclusive |
| Reports.Summarize | src/components/Reports/ReportsManager.tsx:53-65 | paid = received + deductions; outstanding = net − received; completed + in progress ≤ count |
| Reports.RowsAddUp | src/components/Reports/ReportsManager.tsx:471-473 | the financial rows' remaining amounts add up to total amount less total paid |
| Reports.OutstandingVersusRows | src/components/Reports/ReportsManager.tsx:60-65 | summary outstanding and the rows' remaining differ by exactly the unexecuted contract value |
| Reports.StatFor | src/components/Reports/ReportsManager.tsx:68-83 | a client line counts the client's operations and its outstanding is total less paid |
| Reports.AllStats | src/components/Reports/ReportsManager.tsx:68-83 | one line per client, in client order |
| Reports.ClientStats | src/components/Reports/ReportsManager.tsx:68-84 | exactly the clients with at least one filtered operation are listed, with their lines |
| Reports.CountWherePositive | src/components/Reports/ReportsManager.tsx:84 | a matching element makes the count positive |
| Reports.GuaranteeCounts | src/components/Reports/ReportsManager.tsx:87-102 | active checks, letters and warranties never exceed their totals |
| Reports.ActiveWithinTotals | src/components/Reports/ReportsManager.tsx:87-102 | the three active counts are bounded by the totals |
| Reports.EndedWarranties | src/components/Reports/ReportsManager.tsx:791 | ended plus active is the total, so the displayed difference is never negative |
| Reports.Rate | src/components/Reports/ReportsManager.tsx:442 | `den > 0 ? num/den*100 : 0`: rate × den = num × 100, and within [0,100] when 0 ≤ num ≤ den |
| Reports.CompletionRate | src/components/Reports/ReportsManager.tsx:610 | the completion rate lies in [0,100], 0 with no operations |
| Reports.ActiveWarrantyRate | src/components/Reports/ReportsManager.tsx:824-828 | the active warranty share lies in [0,100], 0 with no warranties |
| OperationDetails.StatusLabelAsWritten | src/components/Operations/OperationDetails.tsx:19-27 | the label map as written has no entry exactly for completed_overpaid |
| OperationDetails.StatusColorAsWritten | src/components/Operations/OperationDetails.tsx:29-37 | the colour map as written has no entry exactly for completed_overpaid |
| OperationDetails.OverpaidBadgeMissing | src/components/Operations/OperationDetails.tsx:65-66 | an overpaid operation reaches the badge and gets neither label nor colour |
| OperationDetails.StatusLabel | src/components/Operations/OperationDetails.tsx:19-27 | a label for every status, agreeing with the written map where it has one |
| OperationDetails.StatusColor | src/components/Operations/OperationDetails.tsx:29-37 | a colour for every status, agreeing with the written map where it has one |
| OperationDetails.BadgesDistinct | src/components/Operations/OperationDetails.tsx:19-37 | different statuses get different labels and different colours |
| OperationDetails.RemainingAmount | src/components/Operations/OperationDetails.tsx:14-17 | remaining + received + deductions = executed total |
| OperationDetails.RemainingVersusListRow | src/components/Operations/OperationsList.tsx:474-477 | the list's remaining exceeds the details' remaining by total less executed; they agree when fully executed |
| OperationDetails.ItemRows | src/components/Operations/OperationDetails.tsx:252 | one executed value per item |
| OperationDetails.ItemRowsAddUp | src/components/Operations/OperationDetails.tsx:252 | the item rows add up to the executed total |
| OperationDetails.ActiveBreakdown | src/components/Operations/OperationDetails.tsx:272-291 | one line per active deduction |
| OperationDetails.BreakdownAddsUp | src/components/Operations/OperationDetails.tsx:272-296 | the lines add up to the deductions total |
| OperationDetails.BreakdownMatchesTotal | src/components/Operations/OperationDetails.tsx:272-296 | the lines add up to the total shown under them |
| OperationDetails.CollectionRate | src/components/Operations/OperationDetails.tsx:173 | 0 for a non-positive net amount; otherwise rate × net = received × 100 |
| OperationDetails.CollectionCompleteIff | src/components/Operations/OperationDetails.tsx:14-17 | with a positive net amount the rate is 100 exactly when nothing remains |
| OperationsList.ClientName | src/components/Operations/OperationsList.tsx:47-50 | the first client with the id gives its name; none gives the unknown-client text |
| OperationsList.FilteredOperations | src/components/Operations/OperationsList.tsx:74-124 | an operation is listed exactly when it passes the active filter set (advanced or basic) |
| OperationsList.DefaultFiltersKeepAll | src/components/Operations/OperationsList.tsx:126-136 | reset advanced filters list every operation in order |
| OperationsList.BasicDefaultsKeepAll | src/components/Operations/OperationsList.tsx:113-124 | empty search with "all" selections lists every operation |
| OperationsList.BasicIsAdvancedSubset | src/components/Operations/OperationsList.tsx:74-124 | the basic filter equals the advanced one set to the same term, status and client |
| OperationsList.BoundsInclusive | src/components/Operations/OperationsList.tsx:74-111 | the end date covers its whole day and excludes the next; amount bounds are inclusive |
| OperationsList.OwnNameFound | src/components/Operations/OperationsList.tsx:116 | searching for an operation's own name lists it |
| OperationsList.RowCell | src/components/Operations/OperationsList.tsx:474-477 | the cell shows a non-negative amount, marked as excess exactly when paid exceeds total |
| OperationsList.ExcessMarkerVersusStatus | src/components/Operations/OperationsList.tsx:505-508 | an overpaid status always shows the excess marker; within the tolerance the marker shows while the status says full payment |
| Guarantees.CheckRows | src/components/Guarantees/GuaranteesManager.tsx:61-75 | one tagged row per check of the operation, in order |
| Guarantees.LetterRows | src/components/Guarantees/GuaranteesManager.tsx:77-93 | one tagged row per letter of the operation, in order |
| Guarantees.AllChecks | src/components/Guarantees/GuaranteesManager.tsx:61-75 | as many rows as checks over all operations |
| Guarantees.AllLetters | src/components/Guarantees/GuaranteesManager.tsx:77-93 | as many rows as letters over all operations |
| Guarantees.FlattenAppend | src/components/Guarantees/GuaranteesManager.tsx:61-93 | flattening distributes over concatenation of operation lists |
| Guarantees.FlattenSingle | src/components/Guarantees/GuaranteesManager.tsx:61-93 | one operation flattens to its own rows |
| Guarantees.ExpiringSoonIff | src/components/Guarantees/GuaranteesManager.tsx:95-100 | the day-ceiling test is the same as now < date ≤ now + 30 days |
| Guarantees.NotBothExpiredAndExpiring | src/components/Guarantees/GuaranteesManager.tsx:95-105 | no date is both expired and expiring soon |
| Guarantees.BadgeOf | src/components/Guarantees/GuaranteesManager.tsx:806-832 | returned, expired, expiring and standing each characterised (four if-and-only-ifs) |
| Guarantees.StatusFilterFollowsBadge | src/components/Guarantees/GuaranteesManager.tsx:156-187 | each basic status choice matches exactly the guarantees showing the corresponding badge |
| Guarantees.FilteredRows | src/components/Guarantees/GuaranteesManager.tsx:107-187 | a row is listed exactly when it passes the active filter set |
| Guarantees.DefaultFiltersKeepAll | src/components/Guarantees/GuaranteesManager.tsx:189-201 | reset advanced filters list every row |
| Guarantees.AdvancedActiveIgnoresExpiry | src/components/Guarantees/GuaranteesManager.tsx:107-187 | an unreturned expired guarantee is "active" for the advanced filter but not for the basic one |
| Guarantees.AdvancedBoundsInclusive | src/components/Guarantees/GuaranteesManager.tsx:107-154 | the end date covers its whole day; amount bounds are inclusive |
| Guarantees.CountRows | src/components/Guarantees/GuaranteesManager.tsx:244-251 | active + expired + returned = total and expiring ≤ active |
| Guarantees.ThreeWaySplit | src/components/Guarantees/GuaranteesManager.tsx:244-251 | every row is exactly one of active, expired and returned |
| Warranties.RowsOf | src/components/Warranties/WarrantiesManager.tsx:60-72 | one row per certificate of the operation, tagged with it and its client's name |
| Warranties.AllWarranties | src/components/Warranties/WarrantiesManager.tsx:60-73 | as many rows as certificates over all operations; the contents in Warranties.AllWarrantiesAppend and Warranties.AllWarrantiesSingle |
| Warranties.AllWarrantiesAppend | src/components/Warranties/WarrantiesManager.tsx:60-73 | the `flatMap` distributes over concatenation: the rows of two runs of operations are those of the first run followed by those of the second |
| Warranties.AllWarrantiesSingle | src/components/Warranties/WarrantiesManager.tsx:60-73 | one operation lists exactly its own certificate rows, in order |
| Warranties.AllWarrantiesSnoc | src/components/Warranties/WarrantiesManager.tsx:60-73 | one more operation adds exactly its own rows at the end of the list |
| Warranties.ActiveExpiredComplementary | src/components/Warranties/WarrantiesManager.tsx:93-95 | every certificate matches exactly one of "active" and "expired"; "active" is "in force" |
| Warranties.FilteredWarranties | src/components/Warranties/WarrantiesManager.tsx:87-98 | a certificate is listed exactly when it matches the search and the status choice |
| Warranties.NoFilterKeepsAll | src/components/Warranties/WarrantiesManager.tsx:87-98 | empty search with "all" lists every certificate |
| Warranties.SummaryCards | src/components/Warranties/WarrantiesManager.tsx:269-293 | active + expired = total and expiring ≤ active |
| Warranties.BadgeOf | src/components/Warranties/WarrantiesManager.tsx:743-766 | ended exactly when the "expired" choice matches; expiring exactly when active and ending within thirty days |
| Warranties.FindOperation | src/components/Warranties/WarrantiesManager.tsx:116-174 | the first operation with the id, none exactly when there is none |
| Warranties.SavedWarranty | src/components/Warranties/WarrantiesManager.tsx:116-174 | trimmed texts, always active, an item link only for an item certificate, no notes when blank |
| Warranties.ReplaceById | src/components/Warranties/WarrantiesManager.tsx:116-174 | same length; certificates with the id replaced, the rest in place |
| Warranties.SubmitWarranty | src/components/Warranties/WarrantiesManager.tsx:116-174 | refused exactly when no operation is selected, the number or description is blank, or the operation is missing; otherwise only the certificates and update time of the operation change |
| Warranties.IdeographicSpaceNumberRefused | src/components/Warranties/WarrantiesManager.tsx:118-126 | a certificate number made only of ideographic spaces is blank to `trim()` and is refused |
| Warranties.AddAppendsOne | src/components/Warranties/WarrantiesManager.tsx:116-174 | an existing operation selected and a number and description with text: the submission is accepted and appends exactly the saved certificate |
| Warranties.EditReplacesInPlace | src/components/Warranties/WarrantiesManager.tsx:116-174 | under the same conditions an edit is accepted, keeps the length and the other certificates in place and writes the saved one under the edited id |
| Warranties.EditUnchangedRoundTrip | src/components/Warranties/WarrantiesManager.tsx:176-190 | opening a certificate in the form and saving it untouched gives it back |
| Warranties.DeleteWarranty | src/components/Warranties/WarrantiesManager.tsx:200-214 | the certificates with the id are dropped and every other one is kept; the length falls by the number carrying the id; only the list and the update time change |
| Warranties.DeleteWarrantyKeepsOrder | src/components/Warranties/WarrantiesManager.tsx:205 | the kept certificates come from increasing positions of the old list, and every position whose id differs is among them: the order is kept and duplicates are kept too |
| Warranties.DeleteAbsentKeepsList | src/components/Warranties/WarrantiesManager.tsx:200-214 | deleting an absent id keeps the list |
| Checks.RowsOf | src/components/Checks/ChecksManager.tsx:48-56 | one row per payment of the operation, tagged with it |
| Checks.AllPayments | src/components/Checks/ChecksManager.tsx:48-57 | as many rows as payments over all operations |
| Checks.AllPaymentsAppend | src/components/Checks/ChecksManager.tsx:48-57 | flattening distributes over concatenation |
| Checks.ReceivedPendingDisjoint | src/components/Checks/ChecksManager.tsx:121-123 | no payment is both received and pending; a cash payment without receipt date is neither |
| Checks.BadgeOf | src/components/Checks/ChecksManager.tsx:569-594 | pending exactly for a check without receipt date |
| Checks.NewCashPaymentHiddenFromReceived | src/components/Checks/ChecksManager.tsx:121-123 | a new payment row of the edit form shows as received but neither status filter lists it |
| Checks.IntendedFilterFollowsBadge | src/components/Checks/ChecksManager.tsx:569-594 | the corrected filter agrees with the badge, splits every payment, and includes everything the written one does |
| Checks.FilteredPayments | src/components/Checks/ChecksManager.tsx:59-126 | a row is listed exactly when it passes the active filter set, as written |
| Checks.DefaultFiltersKeepAll | src/components/Checks/ChecksManager.tsx:128-140 | reset advanced filters list every row |
| Checks.AdvancedBoundsInclusive | src/components/Checks/ChecksManager.tsx:84-104 | the end date covers its whole day and excludes the next; amount bounds are inclusive |
| Checks.Summarize | src/components/Checks/ChecksManager.tsx:149-152 | checks + cash = all rows and pending ≤ checks |
| Checks.TotalMatchesOperations | src/components/Checks/ChecksManager.tsx:149 | the total of the rows is the sum of each operation's received payments |
| Checks.RowsSum | src/components/Checks/ChecksManager.tsx:48-57 | the rows of one operation add up to its payments |
| Checks.SumAmountsAppend | src/components/Checks/ChecksManager.tsx:149 | row sums distribute over concatenation |
| Sales.StageLabel | src/components/Sales/SalesOpportunities.tsx:84-94 | a known stage gets its label, different from the stage; any other text is shown as it is |
| Sales.StageLabelsDistinct | src/components/Sales/SalesOpportunities.tsx:84-94 | different known stages get different labels |
| Sales.StageColor | src/components/Sales/SalesOpportunities.tsx:96-106 | a known stage gets its colour, any other the neutral one |
| Sales.UnknownStageLooksLikeLead | src/components/Sales/SalesOpportunities.tsx:96-106 | an unknown stage is coloured like a lead |
| Sales.FilteredOpportunities | src/components/Sales/SalesOpportunities.tsx:119-126 | an opportunity is listed exactly when its title or prospect contains the term ignoring case and its stage is chosen |
| Sales.NoFilterKeepsAll | src/components/Sales/SalesOpportunities.tsx:119-126 | empty search over all stages lists every opportunity |
| Sales.SavedOpportunity | src/components/Sales/SalesOpportunities.tsx:148-162 | active; title, description, prospect name, stage, source, notes and probability copied from the form; no estimate or close date exactly when those inputs are empty; no client, assignee or close date of its own; both time stamps now |
| Sales.ReplaceById | src/components/Sales/SalesOpportunities.tsx:164-167 | same length; opportunities with the id replaced, the rest in place |
| Sales.RemoveById | src/components/Sales/SalesOpportunities.tsx:192-197 | the opportunities with the id are dropped, the others kept; the length falls by their number |
| Sales.ArchiveUndoesAdd | src/components/Sales/SalesOpportunities.tsx:164-197 | archiving a just-added opportunity restores the list |
| Sales.RemoveKeepsDistinct | src/components/Sales/SalesOpportunities.tsx:192-197 | archiving keeps the ids distinct |
| Sales.SalesBoard.constructor | src/components/Sales/SalesOpportunities.tsx:144-174 | the board starts empty with distinct ids |
| Sales.SalesBoard.Submit | src/components/Sales/SalesOpportunities.tsx:144-174 | editing replaces in place under the edited id, adding appends under a fresh id; ids stay distinct |
| Sales.SalesBoard.Archive | src/components/Sales/SalesOpportunities.tsx:192-197 | confirmed: RemoveById; otherwise unchanged; ids stay distinct |
| Auth.DefaultAccounts | src/contexts/AuthContext.tsx:30-64 | three active accounts created at load time, with distinct usernames |
| Auth.FirstMatch | src/contexts/AuthContext.tsx:98 | the first account matching username and password; none exactly when none matches |
| Auth.Token | src/contexts/AuthContext.tsx:109 | `token_<id>_` followed by digits that read back as the timestamp |
| Auth.TokensDistinct | src/contexts/AuthContext.tsx:109 | tokens of one user at different times differ |
| Auth.LoginOutcome | src/contexts/AuthContext.tsx:94-106 | bad credentials exactly when nothing matches; success exactly when the match is active, giving its user |
| Auth.LoginSucceedsIff | src/contexts/AuthContext.tsx:94-106 | with unique usernames, login succeeds exactly when some active account matches both |
| Auth.DefaultAccountsSignIn | src/contexts/AuthContext.tsx:30-106 | the built-in admin and sales accounts sign in with their passwords; a wrong password is refused |
| Auth.AuthState.constructor | src/contexts/AuthContext.tsx:66-70 | nobody signed in, no token |
| Auth.AuthState.Login | src/contexts/AuthContext.tsx:94-117 | result is LoginOutcome; success stores the user and its token, failure leaves the session |
| Auth.AuthState.Logout | src/contexts/AuthContext.tsx:119-124 | user and token cleared |
| Auth.AuthState.HasRole | src/contexts/AuthContext.tsx:126-130 | true only for a signed-in user, and always for an administrator; the full rule in Auth.AccessChecks |
| Auth.AuthState.HasDepartment | src/contexts/AuthContext.tsx:132-136 | true only for a signed-in user, and always for an administrator; the full rule in Auth.AccessChecks |
| Auth.AccessChecks | src/contexts/AuthContext.tsx:126-136 | signed out fails every check; an administrator passes all; anyone else passes exactly their own role and department |
| Text.Lower | src/components/Warranties/WarrantiesManager.tsx:88-91 | ASCII `toLowerCase` (the model folds ASCII letters only) keeps the length and maps each character by itself |
| Text.Trim | src/components/Warranties/WarrantiesManager.tsx:124-152 | `trim()` over the ECMAScript white-space and line-terminator set never lengthens; it is empty exactly when the text is all white space; otherwise it neither starts nor ends with white space |
| Text.TrimmedFixedPoint | src/components/Warranties/WarrantiesManager.tsx:143-152 | a trimmed text is its own trim, so trimming twice is trimming once |
| Text.PadStart | src/utils/calculations.ts:100 | `padStart` reaches the width, ends with the text and fills the front with the pad character |
| Text.PadStartInvertible | src/utils/calculations.ts:100 | stripping the pad characters gives back a text that does not begin with one |
| Text.NatToStringInjective | src/utils/calculations.ts:100 | different numbers render differently |
| Middleware.Split | server/middleware/auth.js:6 | `split(' ')` returns at least one piece |
| Middleware.SplitNoSpace | server/middleware/auth.js:6 | a text without spaces splits into itself |
| Middleware.SplitAfterWord | server/middleware/auth.js:6 | a word, a space and a rest split into the word followed by the rest's pieces |
| Middleware.ExtractToken | server/middleware/auth.js:5-6 | no header or an empty one gives no token; a token is a non-empty piece of the header |
| Middleware.BearerHeaderRoundTrip | server/middleware/auth.js:5-6 | `Bearer <token>` yields exactly the token |
| Middleware.NoSpaceNoToken | server/middleware/auth.js:5-10 | a header without a space gives no token |
| Middleware.Authenticate | server/middleware/auth.js:4-31 | no token is 401 before verification; bad signature 403; no live session 401; otherwise proceed with that session's user |
| Middleware.RequireRole | server/middleware/auth.js:33-45 | 401 without a user, 403 exactly when the role is not listed, otherwise proceed |
| Middleware.RequireDepartment | server/middleware/auth.js:47-59 | 401 without a user, 403 exactly when the department is not listed, otherwise proceed |
| Middleware.NoAdminOverride | server/middleware/auth.js:33-45 | the server gives administrators no exemption: an unlisted "admin" gets 403 |

## Left out

- Formatting helpers of src/utils/calculations.ts (`formatCurrency`, `formatDate`, `formatPercentage`): locale-dependent `Intl` output.
- `generateOperationCode` (src/utils/calculations.ts:92-97): it reads `Date.now()`. Its result is passed in as a plain code.
- Calendar arithmetic with `setMonth`/`setFullYear`: the form's default expiry and due dates and the warranty end date are parameters.
- Clock, random ids and `window.confirm`: `now`, fresh ids and the confirmation are parameters.
- Floating point: money is an exact `real`. `parseFloat` returning `NaN` for a bad amount bound is not modelled; the bounds are `Option<real>`.
- Case folding: `Text.Lower` folds ASCII letters only. Arabic text has no case, and other scripts' folding is not modelled.
- Time zones: a chosen day is its first instant in milliseconds. The end-of-day bound `setHours(23, 59, 59, 999)` is that instant plus 86 399 999.
- Reports.FilteredOperations: the `dateTo` bound is the first instant of the chosen day, as the code compares it, so later operations that day are excluded.
- Asynchronous storage: IndexedDB promises, the `updating` hooks and the re-read of the tables after each handler are not modelled. Each store call is a synchronous method of `Database.LocalStore`.
- Schema versions and the version-2 upgrade of src/utils/database.ts are not modelled.
- Dexie queries that only sort or select (`orderBy`, `getOperationsByClient`, `getOperationsByDateRange`, `searchClients`) are not modelled.
- JSON Web Tokens, bcrypt and the session query: the verification and lookup are the `Middleware.TokenCheck` parameter. A thrown query is not distinguished from a bad signature.
- Session persistence in `localStorage` and the restore on load (src/contexts/AuthContext.tsx:80-92) are not modelled.
- The one-second delay before login is not modelled.
- src/utils/exportUtils.ts and the export handlers of every screen: file generation is out of scope.
- The server routes, database initialisation and src/utils/storage.ts (a pass-through to `dbOperations`) are not part of this model.
- The dashboard, header and sidebar components are not part of this model.
- The Guarantees advanced `type` field is kept in the filter state but never read by the filter. It is not modelled.
- The Guarantees date filter for letters runs on the other tab's rows. Only the filter over a list of rows is modelled.
- The Sales prospect contact fields and the `handleEdit` form loading are not modelled. Saving an edit resets `created_at` to now, as the code does.
- Clients.ContactsEditor.Load: a stored client's contacts are values (`Client.contacts` holds `ContactData`), so the objects the editor loads are not the client record's own. In the code they are shared, and the in-place writes of `updateContact` (lines 66-70) and `removeContact` (line 80) reach the client record held by the parent screen before any submit, and even after `resetForm` abandons the edit. That effect is not modelled.
- Warranties.SubmitWarranty: the handler is modelled as a function returning the updated operation passed to `onUpdateOperation`, not as a state change of the screen.
- Warranties.DeleteWarranty: it takes the owning operation directly. The lookup that returns silently when the operation is missing is the caller's.

## Findings

| source | as written | input that shows it | evidently intended | confidence | as-written member | corrected member |
|---|---|---|---|---|---|---|
| src/components/Operations/OperationDetails.tsx:19-37 | the label and colour maps have four entries and no entry for `completed_overpaid`, which `calculateOperationStatus` returns | an operation at 100% with total 1000, received 1100 and no deductions: status `completed_overpaid`, badge with no label and no colour class | a label and a colour for all five statuses | not executed | OperationDetails.OverpaidBadgeMissing | OperationDetails.BadgesDistinct |
| src/components/Checks/ChecksManager.tsx:121-123 | the "received" filter requires a receipt date, while the status badge (lines 569-594) shows every cash payment as received | a new payment row of the edit form (cash, no receipt date): shown as received, listed by neither "received" nor "pending" | "received" lists every payment the badge shows as received, so the two choices split the payments | not executed | Checks.NewCashPaymentHiddenFromReceived | Checks.IntendedFilterFollowsBadge |

In the second finding, `Checks.FilteredPayments` keeps the filter as written (`Checks.StatusMatches`), because that is what the screen lists. `Checks.StatusMatchesIntended` is the corrected predicate.
