# go-fiber-api core, modelled in Dafny

go-fiber-api is a MongoDB-backed REST API written with the fiber framework.
This project models the parts of it that hold real logic, and proves
properties of that model:

- **The family graph of persons** (`repositories/person.go`, and the
  sparse-body merge of `controllers/person.go`).
  - Each person names a father, a mother, spouses and children.
  - Creating or updating a person mirrors those edges into the neighbours'
    documents (`$addToSet` and `$set`). The model proves this is a set-add,
    that it is idempotent, and that it never retracts an edge.
  - Deleting a person pulls the edges out of the neighbours and removes the
    document in one transaction. The model proves the edges are gone and
    that no other document changes.
  - The store is a class holding `map<ObjectId, Person>` plus the natural
    insertion order.
- **Invoice totals and reports** (`repositories/invoice_repository.go`,
  `controllers/invoice_controller.go`).
  - Line totals and the invoice total are computed in place.
  - Three reports cover a date range: a summary, per product and per day or
    month. The model proves the reports agree with each other.
  - The `YYYY-MM-DD` range parameters are parsed as the full-date of
    section 5.6 of RFC 3339.
- **The schedule, teacher, classroom and subject repositories.**
  - A collection is a sequence of BSON-like documents (`map<string, Value>`)
    in natural order.
  - `Create` stores the `omitempty` encoding of the record.
  - `Update` builds a `$set` document from the supplied fields and applies it
    to the document with the id.
  - `List` filters, sorts and pages, and counts every match.
- **Query and body validation in the schedule, teacher and subject
  handlers.**
  - `is_active` is parsed three different ways.
  - The teacher list parses a comma-separated list of hex ids.
  - Handlers check ids and map repository errors to HTTP status codes.

Replies are `Reply(code, status, message, data)`, mirroring `APIResponse`.

Several things become parameters:
- the store's failures: a boolean per call saying whether it fails, and for the relationship sync the set of neighbour ids whose writes fail;
- the clock (`now`) and fresh ids;
- the Unicode tables for lower-casing and non-spacing marks (`Unicode`);
- `utils.NormalizeText`, whose source is not part of this model (`norm`).

## Model

| member | source | states |
|---|---|---|
| Common.FromHex | controllers/teacher_controller.go:44-47 | `ObjectIDFromHex` succeeds exactly on 24 hex digits, either case |
| Common.FromHexToHex | controllers/person.go:83-90 | the hex form of every id parses back to that id |
| Common.QueryOr | controllers/schedule_controller.go:44-45 | a query parameter is its value, or the default when absent or empty |
| Common.ParseInt | controllers/schedule_controller.go:42-43 | `strconv.Atoi` accepts exactly digits with an optional sign, and a "-" negates the value |
| Common.QueryInt | controllers/schedule_controller.go:42-43 | a query parameter that reads as a signed decimal is that number; anything else is the default |
| Common.QueryId | controllers/subject_controller.go:113-129 | an `id` parameter succeeds iff it is 24 hex digits, giving that id; an empty one gets the "required" message and any other the "invalid" message |
| Common.ParseFormatBool | controllers/teacher_controller.go:32-38 | `strconv.ParseBool` reads back the text a truth value is formatted as |
| TextNormalize.RemoveVietnameseAccent | repositories/person.go:340-360 | an accented vowel or đ maps to its base letter; every other rune is kept; the result is never an accented key |
| TextNormalize.AccentMapShape | repositories/person.go:341-355 | every key is non-ASCII, every value is a base letter, and no base letter is a key |
| TextNormalize.NormalizeText | repositories/person.go:327-338 | the lower-case, drop-marks, fold-accents loop computes the normalised text |
| TextNormalize.NormalizeBounds | repositories/person.go:327-360 | the normalised text is no longer than the input and holds no accented key |
| TextNormalize.NormalizeIdempotent | repositories/person.go:327-360 | normalising twice gives the same text as normalising once |
| TextNormalize.NormalizeStable | repositories/person.go:327-360 | text already lower-case, mark-free and unaccented is left unchanged |
| TextNormalize.FoldAllNoMarks | repositories/person.go:330-336 | on text without marks, the fold is the accent map applied rune by rune |
| TextNormalize.NormalizeExample | repositories/person.go:327-360 | "Văn" normalises to "van" |
| DocStore.BeforeIsStrictOrder | repositories/schedule_repository.go:131-139 | ordering documents by one field, ascending or descending, is a strict order, arrays included |
| DocStore.ExtremeIsExtreme | repositories/schedule_repository.go:131-139 | an array field sorts by the element no other element precedes when ascending, and by the one no other follows when descending |
| DocStore.FindSound | repositories/schedule_repository.go:115-162 | a find returns stored documents that satisfy the filter, in the sort order, at most `limit` of them and no more than the count |
| DocStore.FindComplete | repositories/schedule_repository.go:141-155 | without paging, every stored document that satisfies the filter is returned |
| DocStore.Paged | repositories/teacher_repository.go:116-156 | a positive limit with page below 1 is refused; otherwise the page holds the sorted matches from position (page − 1) × limit on, as many as remain up to `limit`; with limit ≤ 0 every match in sort order; the total counts every match |
| DocStore.PagedFindsEvery | repositories/schedule_repository.go:125-129 | the pages partition the sorted matches: match k is item k mod limit of page k / limit + 1 |
| DocStore.FindById | repositories/schedule_repository.go:79-86 | the found document is stored and carries the id; none is found only when no document carries it |
| DocStore.SetByIdEffect | repositories/schedule_repository.go:62 | `$set` overwrites the supplied fields of the document with the id, keeps its other fields, and leaves the other documents unchanged |
| DocStore.SetByIdMissing | repositories/teacher_repository.go:68 | `$set` on an id that is not stored changes nothing |
| DocStore.DeleteById | repositories/subject_repository.go:133-136 | the documents without the id are kept and the document with it is removed; the flag says whether one was stored |
| DocStore.DeleteByIdMissing | repositories/subject_repository.go:133-136 | deleting an id that is not stored changes nothing and reports no deletion |
| DocStore.SetByIdSingle | repositories/schedule_repository.go:62 | when one document carries the id, `$set` changes only that document, as `UpdateByID` does |
| DocStore.DeleteByIdSingle | repositories/subject_repository.go:133-136 | when one document carries the id, deletion removes only it and keeps the rest in order, as `DeleteOne` does |
| DocStore.ListSort | repositories/teacher_repository.go:127-135 | an empty sort field means `created_at` descending; otherwise ascending iff the order is "asc" |
| DocStore.KeywordFilter | repositories/classroom_repository.go:93-103 | a `name_normalized` match on the normalised keyword when a keyword is given, and `is_active` equality when a value is given; nothing else |
| DocStore.KeywordFilterMatches | repositories/subject_repository.go:83-92 | a document matches iff its `name_normalized` contains the normalised keyword, ignoring case, and its `is_active` equals the value, each only when asked |
| DocStore.KeywordFilterIgnores | repositories/classroom_repository.go:93-103 | changing any field but `name_normalized` and `is_active` does not change whether a document matches |
| DocStore.InIdsMatches | repositories/teacher_repository.go:121-125 | `$in` over ids holds of a stored id list iff the two lists share an id |
| PersonRepository.AddToSet | repositories/person.go:293-295 | `$addToSet` lists the id, keeps every old entry in order, adds nothing else, and keeps a duplicate-free list duplicate-free |
| PersonRepository.AddToSetIdempotent | repositories/person.go:317-321 | adding the same id twice is the same as adding it once |
| PersonRepository.Pull | repositories/person.go:194 | `$pull` removes every occurrence of the id and keeps every other entry |
| PersonRepository.PullNoDup | repositories/person.go:214-218 | `$pull` leaves a list without duplicates |
| PersonRepository.PullIdempotent | repositories/person.go:191-218 | pulling the same id twice is the same as pulling it once |
| PersonRepository.SyncFrame | repositories/person.go:290-324 | sync adds or removes no document, and changes none that the person does not name |
| PersonRepository.SyncLinks | repositories/person.go:292-321 | after a sync whose writes all succeed, the father and mother list the person as a child, each listed spouse lists it as a spouse, and each listed child names it as father (male) or mother (female) |
| PersonRepository.SyncOnlyAdds | repositories/person.go:290-324 | sync keeps every old list entry and every parent link, and creates no duplicates |
| PersonRepository.SyncIdempotent | repositories/person.go:290-324 | when every write succeeds, running sync twice leaves the same store as running it once |
| PersonRepository.SyncStore | repositories/person.go:290-324 | the per-neighbour update loop computes the synced store in which the neighbours whose writes failed keep their old documents |
| PersonRepository.SyncedExceptFrame | repositories/person.go:290-324 | a neighbour whose write failed keeps its document, every other document is as after a complete sync, and with no failure the sync is complete |
| PersonRepository.SetPersonWrites | repositories/person.go:158-159 | `$set` of a record with nothing empty writes that record, and writing the same record again changes nothing |
| PersonRepository.SetPersonCannotClear | models/person.go:18-62 | under `omitempty`, an empty list or an absent parent in the written record keeps the stored value |
| PersonRepository.UpdateNeverRetracts | repositories/person.go:155-167 | an update followed by sync, whichever neighbour writes fail, removes no list entry and no parent link from any other document |
| PersonRepository.UnlinkAndRemove | repositories/person.go:188-246 | the transaction body fails only when the store rejects the empty child update, and otherwise gives the committed delete |
| PersonRepository.UnlinkNoneListed | repositories/person.go:213-241 | with no spouse (or no child) listed, the spouse (or children) step changes nothing |
| PersonRepository.DeleteRemovesEdges | repositories/person.go:189-244 | after a delete the document is gone, no parent or spouse lists the id, and listed children have the gender-selected parent field cleared |
| PersonRepository.DeleteFrame | repositories/person.go:189-244 | a delete changes no document outside those the deleted person names |
| PersonRepository.NewestMatching | repositories/person.go:252-286 | the search returns stored persons whose name or alias contains the keyword, newest first: all of them without a limit, otherwise as many as match up to the limit, none more often than it matches, and no matching person left out is newer than one returned |
| PersonRepository.Repository.All | repositories/person.go:18-20 | the collection in natural order, exactly its documents |
| PersonRepository.Repository.GetByID | repositories/person.go:44-56 | an absent id reads as "none" with no error; a store error is an error |
| PersonRepository.Repository.GetChildren | repositories/person.go:57-75 | the children are exactly the stored persons whose father or mother is the id |
| PersonRepository.Repository.GetSpouses | repositories/person.go:76-100 | the spouses are exactly the stored persons the person lists; none when it lists none; an absent person is an error |
| PersonRepository.Repository.GetFamilyInfo | repositories/person.go:111-152 | none without error for an absent person; the father, mother, spouses and children read from the same store, each failed lookup read as absent or empty |
| PersonRepository.Repository.SearchByNameOrAlias | repositories/person.go:252-286 | fails iff the store does; otherwise the matching stored persons, newest `created_at` first: every one without a limit, else as many as match up to the limit, none more often than it is stored, none left out newer than one returned |
| PersonRepository.Repository.SyncRelationships | repositories/person.go:290-324 | the documents become the synced store with the failed neighbour writes skipped, no failure is reported, and the natural order is unchanged |
| PersonRepository.Repository.Create | repositories/person.go:29-41 | both timestamps are `now`, the document is inserted under its id, and the edges are synced; a failed insert changes nothing, and a failed sync write is not reported |
| PersonRepository.Repository.Update | repositories/person.go:155-167 | `updatedAt` is stamped, the record is `$set` under `omitempty`, then synced; a failed write changes nothing, and a failed sync write is not reported |
| PersonRepository.Repository.Delete | repositories/person.go:170-249 | an absent id is no error and changes nothing; otherwise the unlink steps and the removal commit together or not at all |
| PersonController.ValidIdsSound | controllers/person.go:150-171 | every kept id comes from an element of the array that spells it |
| PersonController.ValidIdsOfHexes | controllers/person.go:150-171 | an array of hex ids reads back as exactly those ids, in order |
| PersonController.CollectIds | controllers/person.go:150-160 | the append loop keeps exactly the string elements that are valid hex ids, in order |
| PersonController.BodyId | controllers/person.go:74-90 | the body's `id` must be a non-empty string holding a valid hex id; a missing, non-string or empty one gets "Missing or invalid 'id' field", and a non-empty non-hex one gets "Invalid ID format" |
| PersonController.MergeString | controllers/person.go:112-123 | a string field is overwritten only when the key holds a string |
| PersonController.MergeDate | controllers/person.go:124-133 | a date is replaced only by a string that parses as an RFC 3339 date-time; anything else is ignored |
| PersonController.MergeParent | controllers/person.go:140-149 | a parent is replaced only by a valid hex id, so a parent link can never be cleared |
| PersonController.MergeIds | controllers/person.go:150-171 | an array replaces the list wholesale with its valid hex ids |
| PersonController.Merge | controllers/person.go:109-174 | the field-by-field loop over the body builds exactly `Merged` |
| PersonController.MergedFields | controllers/person.go:109-174 | each field follows its rule; a parent is never cleared; `updatedAt` is set; id, `createdAt` and the normalised fields are never touched |
| PersonController.MergedIdempotent | controllers/person.go:109-174 | merging the same body a second time changes nothing more |
| PersonController.MergedEmptyBody | controllers/person.go:109-174 | a body naming no field only restamps `updatedAt` |
| PersonController.GetPersonByID | controllers/person.go:318-359 | 400 for a missing or invalid id, 500 for a store error, 404 for an absent person, otherwise the stored person |
| PersonController.GetFamilyInfo | controllers/person.go:270-311 | 400 for a missing or invalid id, 500 for an error on the person, 404 for an absent person, otherwise its family |
| PersonController.DeletePerson | controllers/person.go:196-230 | 400 with the required or invalid message before any store access; 500 "Failed to delete person" exactly when the repository delete fails, leaving the store unchanged; success echoes the id even when nothing was stored |
| PersonController.UpdatePerson | controllers/person.go:64-189 | 400 before any store access for a bad id, 500 on a read error, 404 for an absent person, 500 on a failed write; otherwise the merge of the body onto the stored record is written and synced, with failed neighbour writes skipped and not reported, and the reply carries it with the write time |
| Chrono.ParseFormatDate | controllers/invoice_controller.go:116-123 | every valid date written `YYYY-MM-DD` parses back to itself |
| Chrono.MonthKeyPrefixOfDayKey | repositories/invoice_repository.go:120-125 | the month key of an instant is the prefix of its day key, followed by "-" and the day |
| Chrono.ParseDateTime | controllers/person.go:124-133 | an accepted date-time has a valid `YYYY-MM-DD` date, a "T" and an hour digit |
| Chrono.ParseOffset | controllers/person.go:124-133 | the zone is accepted exactly when it is "Z" or a signed `hh:mm` with hour at most 24 and minute at most 60, and it reads as that many seconds east of UTC |
| Chrono.ParseFormatDateTime | controllers/person.go:124-133 | every UTC date-time of a four-digit year, written in the RFC 3339 layout, parses back to its instant |
| Chrono.OneDigitHour | controllers/person.go:124-133 | a one-digit hour parses as the same hour with a leading zero |
| Chrono.FractionSeparators | controllers/person.go:124-133 | a ',' right after the seconds parses as a '.' does |
| Chrono.WideOffsets | controllers/person.go:124-133 | the offsets "+24:00" and "-00:60" are accepted, as 86400 and -3600 seconds |
| InvoiceRepository.CalculateTotals | repositories/invoice_repository.go:185-193 | each line total becomes quantity × unit price, overwriting the old value, and the total is their sum |
| InvoiceRepository.WithTotals | repositories/invoice_repository.go:185-193 | the totalled invoice is consistent and keeps everything else |
| InvoiceRepository.WithTotalsIdempotent | repositories/invoice_repository.go:185-193 | computing the totals twice changes nothing more |
| InvoiceRepository.Dated | repositories/invoice_repository.go:38-40 | exactly the stored invoices with from ≤ created_at ≤ to |
| InvoiceRepository.Summarize | repositories/invoice_repository.go:47-59 | the cursor loop computes the summary of the invoices |
| InvoiceRepository.AllItemsUnits | repositories/invoice_repository.go:55-57 | the units over all items equal the sum of the per-invoice units |
| InvoiceRepository.AllItemsRevenue | repositories/invoice_repository.go:185-193 | for totalled invoices, the line totals over all items sum to the sum of invoice totals |
| InvoiceRepository.ProductReportStep | repositories/invoice_repository.go:79-89 | one more item adds its quantity and line total to its product's entry, created with its name when new |
| InvoiceRepository.FirstNameIsFirst | repositories/invoice_repository.go:81-86 | a product's name is the name on the first item with that id |
| InvoiceRepository.CollectProducts | repositories/invoice_repository.go:73-90 | the cursor loop builds the product report: one entry per product id |
| InvoiceRepository.ReportByStep | repositories/invoice_repository.go:126-132 | one more invoice adds its total and units to its period's entry, created when new |
| InvoiceRepository.AddToPeriod | repositories/invoice_repository.go:126-132 | the update of one period entry |
| InvoiceRepository.CollectPeriods | repositories/invoice_repository.go:114-133 | the cursor loop builds the period report keyed `YYYY-MM-DD` or `YYYY-MM` |
| InvoiceRepository.Repository.CreateInvoice | repositories/invoice_repository.go:142-151 | a non-empty id is kept, an empty one becomes the decimal clock reading, `createdAt` is set and totals are computed before the insert, so the store keeps every invoice's totals consistent with its lines |
| InvoiceRepository.Repository.GetInvoiceReportByDateRange | repositories/invoice_repository.go:37-60 | the summary of the invoices in range |
| InvoiceRepository.Repository.GetProductSalesByDateRange | repositories/invoice_repository.go:63-97 | the product report of the items in range, in some order |
| InvoiceRepository.Repository.GetSalesByPeriod | repositories/invoice_repository.go:100-140 | a group other than "day" or "month" is refused before the store is read; otherwise the period report, in some order |
| InvoiceRepository.EmptyRange | repositories/invoice_repository.go:47 | an empty range gives a zero summary and empty product and period reports |
| InvoiceRepository.ProductUnitsAgree | repositories/invoice_repository.go:53-89 | the units sold over all products equal the summary's units |
| InvoiceRepository.ProductRevenueAgrees | repositories/invoice_repository.go:54-88 | the revenue over all products of totalled invoices equals the summary's total |
| InvoiceRepository.PeriodsAgree | repositories/invoice_repository.go:53-132 | the revenue and quantity over all periods equal the summary's total and units |
| InvoiceRepository.StoredRevenueAgrees | repositories/invoice_repository.go:63-98 | since the store keeps every invoice totalled, for any range the product revenues add up to the summary's total |
| InvoiceController.ParseDateRange | controllers/invoice_controller.go:110-125 | a missing bound fails first; an invalid `from` fails before `to` is read; a valid `from` with an invalid `to` fails with the `to` error; on success the values are the midnights of the two parsed dates; an inverted range passes |
| InvoiceController.ParseDateRangeOfDates | controllers/invoice_controller.go:110-125 | two valid dates as parameters give their midnights |
| InvoiceController.GetInvoiceSummary | controllers/invoice_controller.go:70-80 | a parse error is 400, a store error 500, otherwise the summary |
| InvoiceController.GetProductSales | controllers/invoice_controller.go:83-93 | a parse error is 400, a store error 500, otherwise the product report |
| InvoiceController.GetGroupedSales | controllers/invoice_controller.go:96-107 | `group` defaults to "day"; every error, an invalid group included, is 400 |
| ScheduleRepository.Encode | models/schedule.go:10-22 | the stored document carries the schedule's fields, an `_id` only when set, and never `is_active` |
| ScheduleRepository.SuppliedKeys | repositories/schedule_repository.go:40-54 | each field enters the update only when supplied: non-zero classroom, non-empty year, non-zero semester and week, present days |
| ScheduleRepository.SuppliedValue | repositories/schedule_repository.go:40-54 | a supplied field is written with the value it is stored as |
| ScheduleRepository.BuildSupplied | repositories/schedule_repository.go:40-54 | the key-by-key build computes the supplied fields |
| ScheduleRepository.NothingSupplied | repositories/schedule_repository.go:56-58 | the update is empty exactly when no field is supplied |
| ScheduleRepository.NonNull | repositories/schedule_repository.go:116-123 | the filter is exactly the non-nil entries, each as equality |
| ScheduleRepository.CopyFilters | repositories/schedule_repository.go:116-123 | the copy loop computes that filter |
| ScheduleRepository.ScheduleSort | repositories/schedule_repository.go:131-139 | an empty field becomes `created_at`; ascending iff the order is "asc" |
| ScheduleRepository.Repository.Create | repositories/schedule_repository.go:27-35 | a fresh id and `createdAt` = `updatedAt` = now; a failed insert changes nothing |
| ScheduleRepository.Repository.Update | repositories/schedule_repository.go:38-64 | "no data to update" without a write exactly when nothing is supplied; otherwise the supplied fields and `updated_at` are set |
| ScheduleRepository.Repository.Delete | repositories/schedule_repository.go:67-76 | a missing id gives "no documents" and changes nothing; otherwise the document is removed |
| ScheduleRepository.Repository.GetByID | repositories/schedule_repository.go:79-86 | the stored document with the id, or an error |
| ScheduleRepository.Repository.FindByClassroomWeek | repositories/schedule_repository.go:89-112 | exactly the stored schedules of that classroom, year, semester and week, in natural order (an unsorted, unpaged find) |
| ScheduleRepository.Repository.List | repositories/schedule_repository.go:115-162 | the non-nil filters, the schedule sort and the paging |
| ScheduleRepository.UpdateEffect | repositories/schedule_repository.go:60-62 | an update sets `updated_at` and the supplied fields, and keeps the rest of the target |
| ScheduleRepository.ActiveFilterMatchesNoCreated | repositories/schedule_repository.go:27-35 | an `is_active` filter matches no schedule `Create` stored |
| ScheduleController.ListFilters | controllers/schedule_controller.go:47-74 | no filter value is null |
| ScheduleController.BuildFilters | controllers/schedule_controller.go:47-74 | the key-by-key build computes the filter map |
| ScheduleController.ListFiltersClassroom | controllers/schedule_controller.go:49-54 | `classroom_id` enters iff it is a valid hex id, as that id |
| ScheduleController.ListFiltersPeriod | controllers/schedule_controller.go:56-66 | the year enters iff non-empty, as the string given; semester and week iff they read as non-zero, as that integer |
| ScheduleController.ListFiltersActive | controllers/schedule_controller.go:67-74 | any non-empty `is_active` enters, as whether it is exactly "true" |
| ScheduleController.ListFiltersKeys | controllers/schedule_controller.go:47-74 | no other key enters |
| ScheduleController.ActiveQueryFindsNothing | controllers/schedule_controller.go:67-76 | a list asked for any `is_active` finds no stored schedule |
| ScheduleController.ListSchedules | controllers/schedule_controller.go:41-96 | defaults page 1, limit 10, `created_at`, "desc"; a list error is 500; otherwise items, total, page and limit |
| ScheduleController.GetSchedule | controllers/schedule_controller.go:139-172 | 400 for a missing or invalid id; any lookup error is 404 |
| ScheduleController.UpdateSchedule | controllers/schedule_controller.go:251-282 | 400 for a zero id before the store is touched; any update error is 500 |
| ScheduleController.DeleteSchedule | controllers/schedule_controller.go:296-328 | 400 for a missing or invalid id; a missing document is 500 like a store error |
| TeacherRepository.EncodeFields | repositories/teacher_repository.go:27-36 | the stored teacher keeps its name, normal form, `is_active` and subject ids |
| TeacherRepository.EncodeOmitsEmpty | models/teacher.go:9-22 | `omitempty` fields are stored only when not empty |
| TeacherRepository.UpdateDoc | repositories/teacher_repository.go:64-66 | `is_active` and `updated_at` are always written |
| TeacherRepository.UpdateDocName | repositories/teacher_repository.go:42-45 | name and its normal form are written together, only for a non-empty name |
| TeacherRepository.UpdateDocOptional | repositories/teacher_repository.go:46-63 | email, phone, address and avatar are written only when non-empty; birth date and subject ids only when present |
| TeacherRepository.UpdateDocFields | repositories/teacher_repository.go:39-69 | no other field is written |
| TeacherRepository.BuildUpdate | repositories/teacher_repository.go:41-66 | the key-by-key build computes the update |
| TeacherRepository.ListFilter | repositories/teacher_repository.go:106-125 | the keyword filter plus `$in` on subject ids exactly when some are given |
| TeacherRepository.SubjectFilterMatches | repositories/teacher_repository.go:121-125 | a teacher passes the subject filter iff it teaches one of the subjects |
| TeacherRepository.Repository.Create | repositories/teacher_repository.go:27-36 | fresh id, equal timestamps, normalised name; a failed insert changes nothing |
| TeacherRepository.Repository.Update | repositories/teacher_repository.go:39-70 | always a write; only a store error is reported |
| TeacherRepository.Repository.GetByID | repositories/teacher_repository.go:73-80 | the stored document with the id, or an error |
| TeacherRepository.Repository.List | repositories/teacher_repository.go:103-157 | the teacher filter, the default sort and the paging |
| TeacherRepository.UpdateEffect | repositories/teacher_repository.go:64-68 | the target gets `is_active` and `updated_at` and keeps every field not written |
| TeacherController.Split | controllers/teacher_controller.go:42 | `strings.Split` gives at least one piece and no piece holds the separator |
| TeacherController.JoinSplit | controllers/teacher_controller.go:42 | joining the pieces gives the text back |
| TeacherController.SplitJoin | controllers/teacher_controller.go:42 | splitting the join of separator-free pieces gives the pieces back |
| TeacherController.ParseSubjectIds | controllers/teacher_controller.go:40-49 | the loop keeps exactly the valid hex pieces, in order; an empty parameter gives none |
| TeacherController.ValidIdsHexes | controllers/teacher_controller.go:43-48 | pieces that are the hex forms of ids give those ids |
| TeacherController.SubjectIdsRoundTrip | controllers/teacher_controller.go:40-49 | a comma-separated list of ids reads back exactly |
| TeacherController.SpacedPieceDropped | controllers/teacher_controller.go:42-48 | a piece after ", " starts with a space and is dropped |
| TeacherController.ActiveOfFormatted | controllers/teacher_controller.go:32-38 | `is_active` formatted from a truth value filters on that value |
| TeacherController.ListTeachers | controllers/teacher_controller.go:23-70 | defaults page 1, limit 10, empty sort field, "desc"; a list error is 500; otherwise items, total, page and limit |
| TeacherController.GetTeacher | controllers/teacher_controller.go:74-106 | 400 for a missing or invalid id; any lookup error is 404 |
| TeacherController.UpdateTeacher | controllers/teacher_controller.go:139-169 | 400 for a zero id before the store is touched; a write error is 500 |
| ClassroomRepository.EncodeFields | repositories/classroom_repository.go:27-36 | the stored classroom keeps name and `is_active`, and its school year only when given |
| ClassroomRepository.EncodeNormalized | repositories/classroom_repository.go:27-36 | the normal form is stored when not empty |
| ClassroomRepository.UpdateDoc | repositories/classroom_repository.go:52-55 | `is_active` and `updated_at` are always written |
| ClassroomRepository.UpdateDocSupplied | repositories/classroom_repository.go:42-51 | name with its normal form for a non-empty name; description when non-empty; grade when non-zero |
| ClassroomRepository.UpdateDocFields | repositories/classroom_repository.go:39-57 | no other field, in particular not `school_year` |
| ClassroomRepository.BuildUpdate | repositories/classroom_repository.go:41-55 | the key-by-key build computes the update |
| ClassroomRepository.Repository.Create | repositories/classroom_repository.go:27-36 | fresh id, equal timestamps, normalised name; a failed insert changes nothing |
| ClassroomRepository.Repository.Update | repositories/classroom_repository.go:39-57 | always a write; only a store error is reported |
| ClassroomRepository.Repository.List | repositories/classroom_repository.go:90-142 | the keyword filter, the default sort and the paging |
| ClassroomRepository.UpdateEffect | repositories/classroom_repository.go:52-56 | the target keeps its school year and every field not written, and gets `is_active` |
| ClassroomRepository.ListIgnoresSchoolYear | repositories/classroom_repository.go:90-103 | classrooms differing only in school year are listed alike |
| SubjectRepository.EncodeFields | repositories/subject_repository.go:27-36 | the stored subject keeps name and `is_active`, and its code only when given |
| SubjectRepository.UpdateDoc | repositories/subject_repository.go:55-58 | `updated_at` and `is_active` are always written |
| SubjectRepository.UpdateDocSupplied | repositories/subject_repository.go:43-52 | name with its normal form for a non-empty name; code and description when non-empty |
| SubjectRepository.UpdateDocFields | repositories/subject_repository.go:40-67 | no other field is written |
| SubjectRepository.BuildUpdate | repositories/subject_repository.go:42-58 | the key-by-key build computes the update |
| SubjectRepository.UpdateNeverSkipped | repositories/subject_repository.go:58-65 | the "only updated_at" early return never applies |
| SubjectRepository.Repository.Create | repositories/subject_repository.go:27-36 | fresh id, equal timestamps, normalised name; a failed insert changes nothing |
| SubjectRepository.Repository.Update | repositories/subject_repository.go:40-67 | the early return as written; otherwise `$set`, with only a store error reported |
| SubjectRepository.Repository.Delete | repositories/subject_repository.go:133-136 | only a store error is reported; a missing id changes nothing |
| SubjectRepository.Repository.GetByID | repositories/subject_repository.go:70-77 | the stored document with the id, or an error |
| SubjectRepository.Repository.List | repositories/subject_repository.go:80-130 | the keyword filter, the default sort and the paging |
| SubjectRepository.UpdateEffect | repositories/subject_repository.go:55-62 | the target gets `is_active` and `updated_at` and keeps every field not written |
| SubjectController.TriState | controllers/subject_controller.go:157-164 | exactly "true" is true and exactly "false" is false; anything else applies no filter |
| SubjectController.TriStateAgreesWithParseBool | controllers/subject_controller.go:157-164 | where the subject list accepts a value, `strconv.ParseBool` reads it alike |
| SubjectController.TriStateNarrowerThanParseBool | controllers/subject_controller.go:157-164 | "1" filters teachers on true but applies no filter to subjects |
| SubjectController.CreateSubject | controllers/subject_controller.go:31-63 | 400 "Name is required" before the store is touched; a failed insert is 500; otherwise the created subject |
| SubjectController.UpdateSubject | controllers/subject_controller.go:76-108 | 400 for a zero id before the store is touched; 500 exactly on a write error |
| SubjectController.GetSubjectByID | controllers/subject_controller.go:112-145 | 400 for a missing or invalid id; any lookup error is 404 |
| SubjectController.ListSubjects | controllers/subject_controller.go:149-183 | defaults page 1, limit 10, empty sort field, "desc"; a list error is 500; otherwise items and total |
| SubjectController.DeleteSubject | controllers/subject_controller.go:187-218 | 400 for a missing or invalid id; 500 exactly on a store error; a missing id succeeds and changes nothing |

## Left out

- Request-body decoding is not modelled. Handlers receive the decoded record, or for `UpdatePerson` the decoded JSON map. The "Invalid request body" / "Invalid input" 400 paths are therefore not modelled.
- Responses are not serialised to JSON.
- The handlers `CreatePerson`, `SearchPersons` and `GetAllPersons` (controllers/person.go:33-57, 237-263, 366-384) are not modelled: each forwards to a single store call. So are `CreateSchedule` (controllers/schedule_controller.go:208-231) and `CreateTeacher` (controllers/teacher_controller.go:111-134).
- The invoice CRUD handlers and `GetInvoiceByID`, `ListInvoices` and `DeleteInvoice` are pass-through and not modelled. So are teacher `GetAll` and classroom `GetByID`/`GetAll`.
- controllers/classroom_controller.go is not part of this model. It calls the classroom `List` with an argument the repository does not accept.
- Authentication, users, products, configuration and routing are not modelled.
- MongoDB I/O is not modelled. Every store call that can fail takes a boolean saying whether it fails. The neighbour writes of the relationship sync take the set of neighbour ids whose writes fail; every write to such an id fails, so a failure of one write among several to the same neighbour is not modelled. A cursor decode error counts as a failure of that call.
- The transaction of `Delete` is modelled as a working copy that is committed or dropped. Sessions and retries are not modelled.
- Whether the driver rejects the empty update document sent for a person of another gender is a parameter (`emptyUpdateRejected`).
- The goroutines of `GetFamilyInfo` become sequential reads of one store snapshot.
- `time.Now`, `UnixNano` and `NewObjectID` become parameters. Times are whole seconds since the Unix epoch, in UTC; time zones are not modelled.
- The Unicode tables (`unicode.ToLower`, the Mn category) are a parameter. `utils.NormalizeText` is an uninterpreted parameter, unrelated to the person `normalizeText`.
- `$regex` is modelled as case-insensitive substring containment. Keywords holding regex metacharacters are not modelled.
- Money is `real`, so `float64` rounding is not modelled.
- The period and product report lists come from map iteration. The model states only that they enumerate the report map, in some order.
- Sort ties keep natural order. The store leaves this order unspecified.
- Only the BSON types null, integers, strings, arrays, ids, booleans and dates are modelled. An array nested inside a sorted array field is compared by its type alone.
- Common.QueryInt: does not model overflow of `strconv.Atoi` beyond 64 bits. Any signed decimal is accepted as an unbounded integer.
- Chrono.ParseDateTime: its own contract states only the shape of an accepted date-time. The instant is stated by the lemmas beside it: `ParseFormatDateTime` for the UTC text Go writes, and `ParseOffset` for the zone. Fractional seconds are accepted and dropped, since instants are whole seconds. The `time.Location` of the parsed value is not modelled, only its instant.
- A sort field is read as a top-level key. MongoDB resolves a dotted path such as `days.day_of_week` into embedded documents; the model sorts such a field as null for every document, so the list keeps natural order.
- DocStore.SetById and DocStore.DeleteById act on every document carrying the id, while `UpdateByID`, `UpdateOne` and `DeleteOne` act on the first. They agree while ids are unique, as `SetByIdSingle` and `DeleteByIdSingle` state; that every stored id is unique is not proved as a store invariant.
- Page and limit are unbounded integers. The `int64` conversions of page and limit are not modelled.
