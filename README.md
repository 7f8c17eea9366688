# Patients, medications and prescriptions: a verified model of the CRUD services

This project models the service layer of a small clinic backend: patients,
medications, and the prescriptions that link a patient to a medication. The
database is replaced by one in-memory `Store` object that holds three id-keyed
maps (one per table) and three id counters (the tables' auto-increment keys,
never reused). The three services become methods of that object, with the
same successes and failures as the TypeScript services:

- `paginate` builds the `{data, meta: {total, page, lastPage}}` envelope, with
  `lastPage` the integer ceiling of `total / limit`.
- The patient service creates, lists newest first, finds, partially updates,
  and removes patients. Removing a patient also removes its prescriptions,
  because the prescription's patient relation is declared `ON DELETE CASCADE`.
- The medication service does the same for medications. Its list is ordered
  by name, and its update is a shallow merge of the sent fields.
- The prescription service creates a prescription only when both the patient
  and the medication exist, checking the patient first. It removes a
  prescription by its own id.

Files:

- `records.dfy` (module `Records`): the entities, the request payloads, the
  partial-update rules, the NotFound errors, and the decimal rendering of ids
  used in error messages.
- `pagination.dfy` (module `Pagination`): the envelope, `lastPage`, and the
  `skip`/`take` window.
- `listing.dfy` (module `Listing`): the newest-first patient listing, the
  name-ordered medication listing, and the string order it uses.
- `store.dfy` (module `Clinic`): the `Store` class with the three services.
  `Valid()` is its invariant: every row is keyed by its own id below its
  table's counter, required text is non-empty, and every prescription
  references a stored patient and a stored medication. Every mutating method
  preserves it.
- `scenarios.dfy` (module `Scenarios`): client code that follows the API's
  end-to-end request sequences and asserts the responses the contracts
  guarantee.

Where the program's own documentation and its code disagree, the model
follows the code:

- A prescription's `endDate` is required here. The entity documents it as
  optional and nullable (src/prescriptions/entities/prescription.entity.ts:42-43,
  `required: false` and `nullable: true`), but the create payload validates it
  with `@IsDateString()` and no `@IsOptional()`
  (src/prescriptions/dto/create-prescription.dto.ts:42-43), so a request
  without it never reaches the service.
- Medication removal does not check for prescriptions that still reference the
  medication, although the delete route's description says "Verify it has no
  associated prescriptions." (src/medications/medications.controller.ts:80).
  See Left out.

## Model

| member | source | states |
|---|---|---|
| `Pagination.Paginate` | src/common/utils/paginate.util.ts:1-15 | `data` is returned unchanged; `total` and `page` are copied; `lastPage` is 0 for no rows, and otherwise `(lastPage-1)*limit < total <= lastPage*limit` |
| `Pagination.LastPage` | src/common/utils/paginate.util.ts:12 | `Math.ceil(total/limit)` for a positive limit: 0 for no rows, otherwise the ceiling bounds |
| `Pagination.LastPageIsLeast` | src/common/utils/paginate.util.ts:12 | `lastPage` is the fewest pages of `limit` rows that hold `total` rows |
| `Pagination.LastPageMonotone` | src/common/utils/paginate.util.ts:12 | for a fixed limit, more rows never give a smaller `lastPage` |
| `Pagination.Window` | src/patients/patients.service.ts:28-29 | `skip: (page-1)*limit, take: limit`: at most `limit` rows, the consecutive rows from the offset, and none past the end |
| `Pagination.RowOnPage` | src/patients/patients.service.ts:26-33 | the row at index `i` is on page `i/limit + 1`, at position `i % limit`, and that page is at most `lastPage` |
| `Pagination.RowOnOnePage` | src/patients/patients.service.ts:28-29 | a row shown on a page belongs to that page only: its index fixes the page |
| `Listing.NewestFirstDescending` | src/patients/patients.service.ts:30 | the patient listing (`order: { id: 'DESC' }`) has strictly decreasing ids |
| `Listing.NewestFirstMembers` | src/patients/patients.service.ts:26-31 | the patient listing holds exactly the stored patients |
| `Listing.NewestFirstLength` | src/patients/patients.service.ts:26-33 | the listing's length is the number of stored patients, which is the `total` of the count |
| `Listing.NameBeforeIrreflexive` | src/medications/medications.service.ts:25 | no name sorts before itself |
| `Listing.NameBeforeTransitive` | src/medications/medications.service.ts:25 | the name order is transitive |
| `Listing.NameBeforeTotal` | src/medications/medications.service.ts:25 | of two different names, one sorts before the other |
| `Listing.InsertByNameSorted` | src/medications/medications.service.ts:25 | inserting a medication whose id is new into a name-sorted listing keeps it sorted |
| `Listing.InsertByNameElements` | src/medications/medications.service.ts:25 | inserting into the listing adds exactly the one medication and keeps every other row |
| `Listing.ByNameSorted` | src/medications/medications.service.ts:25 | the medication listing (`order: { name: 'ASC' }`) is sorted by name, ties by id |
| `Listing.ByNameMembers` | src/medications/medications.service.ts:22-26 | the medication listing holds exactly the stored medications |
| `Listing.ByNameLength` | src/medications/medications.service.ts:22-27 | the listing's length is the number of stored medications, which is the `total` of the count |
| `Listing.SortedByNameUnique` | src/medications/medications.service.ts:25 | two name-sorted listings of the same medications are identical, so the order fixes the listing |
| `Records.UpdatedPatient` | src/patients/patients.service.ts:52-56 | each sent field replaces the stored one (a birth date after parsing); absent fields and the id keep their values |
| `Records.UpdatedPatientIdempotent` | src/patients/patients.service.ts:52-56 | applying the same partial update twice gives the same patient as applying it once |
| `Records.MergedMedication` | src/medications/medications.service.ts:40 | `Object.assign`: each sent key (a sent null description too) overwrites; absent keys and the id keep their values |
| `Records.NatToDecimalRoundTrip` | src/patients/patients.service.ts:43 | the decimal text of a non-negative id reads back as that id |
| `Records.IntToDecimalRoundTrip` | src/patients/patients.service.ts:43 | the text an id renders to in a message (with `-` for negatives) reads back as that id |
| `Records.PatientNotFoundInjective` | src/patients/patients.service.ts:43 | `Patient with id {id} not found` names exactly one id |
| `Records.MedicationNotFoundInjective` | src/medications/medications.service.ts:33 | `Medication with id {id} not found` names exactly one id |
| `Clinic.EveryPatientOnAPage` | src/patients/patients.service.ts:25-34 | every stored patient is on some page between 1 and `lastPage` of the newest-first listing |
| `Clinic.EveryMedicationOnAPage` | src/medications/medications.service.ts:21-28 | every stored medication is on some page between 1 and `lastPage` of the name-ordered listing |
| `Clinic.Store.constructor` | src/app.module.ts:15-24 | a new database, such as the `:memory:` one of the test setup, starts with three empty tables, and each table's first id is 1 |
| `Clinic.Store.CreatePatient` | src/patients/patients.service.ts:16-23 | adds exactly one patient under a fresh id, with the given names and the parsed birth date as `dateOfBirth`; the other tables are unchanged |
| `Clinic.Store.FindAllPatients` | src/patients/patients.service.ts:25-34 | the page is the window at `(page-1)*limit` of the id-descending listing, at most `limit` rows, all stored patients; `total` is the number of patients, `page` is the requested page, and `lastPage` is the ceiling |
| `Clinic.Store.FindOnePatient` | src/patients/patients.service.ts:36-47 | succeeds exactly when the id is stored, with that record; otherwise NotFound `Patient with id {id} not found` |
| `Clinic.Store.UpdatePatient` | src/patients/patients.service.ts:49-59 | on a stored id, overwrites only the sent fields and stores the result under the same id; on a missing id, the same NotFound as the lookup and an unchanged store |
| `Clinic.Store.RemovePatient` | src/patients/patients.service.ts:61-64 | on a stored id, deletes the patient and exactly the prescriptions whose patient it is (the cascade of src/prescriptions/entities/prescription.entity.ts:21-23); medications and other prescriptions are unchanged; on a missing id, NotFound and an unchanged store |
| `Clinic.Store.CreateMedication` | src/medications/medications.service.ts:16-19 | adds exactly one medication under a fresh id with the given name and description; the other tables are unchanged |
| `Clinic.Store.FindAllMedications` | src/medications/medications.service.ts:21-28 | the page is the window at `(page-1)*limit` of the name-sorted listing, at most `limit` rows, sorted by name, all stored medications; `total` is the number of medications |
| `Clinic.Store.FindOneMedication` | src/medications/medications.service.ts:30-36 | succeeds exactly when the id is stored, with that record; otherwise NotFound `Medication with id {id} not found` |
| `Clinic.Store.UpdateMedication` | src/medications/medications.service.ts:38-42 | on a stored id, stores the shallow merge of the sent fields under the same id; on a missing id, NotFound and an unchanged store |
| `Clinic.Store.RemoveMedication` | src/medications/medications.service.ts:44-47 | on a stored id, deletes only that medication without checking prescriptions; on a missing id, NotFound and an unchanged store |
| `Clinic.Store.CreatePrescription` | src/prescriptions/prescriptions.service.ts:20-36 | a missing patient gives NotFound `Patient not found`, even when the medication is also missing; a stored patient with a missing medication gives `Medication not found`; a failure stores nothing; a success adds exactly one prescription under a fresh id, referencing both and carrying the payload's dosage, frequency and date strings, whatever the order of the dates |
| `Clinic.Store.RemovePrescription` | src/prescriptions/prescriptions.service.ts:38-42 | deletes by prescription id alone; a missing id gives a NotFound without a message and an unchanged store; afterwards the id is in no patient's prescriptions |

## Left out

- Controllers and routing are not modelled. The list methods take `page` and `limit` with the controllers' defaults, 1 and 10.
- Swagger decorators, response schemas, the `{status, data}` response wrapper and the exception filter are not modelled. They are formatting, not logic.
- Bootstrap, module wiring and database configuration are not modelled. The file-backed versus `:memory:` choice and CORS are I/O.
- The validators of the request payloads are calls into class-validator, which is not part of this model. Their effect is stated as preconditions: required names, dosage and frequency are non-empty, and ids are integers.
- `new Date(...)` parsing is not modelled. A stored date records the request string it came from, and dates are never compared. A patient's birth date goes through `new Date`; a prescription's `startDate` and `endDate` are spread from the payload as the request strings.
- The `createdAt` and `updatedAt` timestamps are left out. They come from the clock.
- Eager loading of `prescriptions` and `prescriptions.medication` is ORM detail. A patient's prescriptions are the query `Store.PrescriptionsOf`, and the lookups return the bare records.
- Concurrency is not modelled. Each method is one atomic step, so the race between the existence checks and the insert in `create` cannot occur here.
- The query-plan and index test is about the database, not the logic.
- The update payload classes (src/patients/dto/update-patient.dto.ts, src/medications/dto/update-medication.dto.ts) are not part of this model. Their fields are taken as the create payload's fields, each optional.
- Clinic.Store.UpdatePatient: a field sent as `null` is not modelled. It passes the `!== undefined` test. A null `firstName` or `lastName` then fails the column's NOT NULL constraint in the database. A null `birthDate` is stored as `new Date(null)`, the epoch 1970-01-01, and the update succeeds.
- Clinic.Store.UpdateMedication: a `name` sent as `null` is not modelled (the payload's `name` is a string when sent). `Object.assign` copies the null, and the save then fails on the NOT NULL `name` column (src/medications/entities/medication.entity.ts:18-19).
- Clinic.Store.FindOnePatient: the NotFound text renders the id as its exact decimal digits, which matches the source's `${id}` only for |id| <= 2^53, where every integer prints its exact digits. Ids are JavaScript numbers: above 2^53 a template literal prints the shortest decimal that reads back as the same double (2^60 prints as 1152921504606847000), and from 10^21 on it prints exponent form (`1e+21`).
- Clinic.Store.FindOneMedication: the same as for patients; the NotFound text matches the source's `${id}` only for |id| <= 2^53, because ids are JavaScript numbers, printed above 2^53 as the shortest decimal that reads back as the same double and from 10^21 on in exponent form.
- Clinic.Store.RemoveMedication: requires that no prescription references the medication. With references, the outcome depends on the database's foreign-key enforcement, which is not in the code.
- Clinic.Store.FindAllPatients: requires `page >= 1` and `limit >= 1`. `limit = 0` makes `Math.ceil` return Infinity, or NaN (serialised as JSON `null`) when there are no rows, which is floating-point behaviour, and a negative offset is database behaviour.
- Clinic.Store.FindAllMedications: requires `page >= 1` and `limit >= 1`, as for patients. SQL leaves the order of medications with equal names unspecified; the model takes them by id.
- Pagination.LastPage: integer ceiling division, not `Math.ceil` on a floating-point quotient. The two agree while the total stays below 2^53, where floating-point division of integers is exact enough for the ceiling.
