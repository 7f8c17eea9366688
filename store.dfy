/**
 * The three services over one in-memory store. The database's three tables
 * become id-keyed maps, and each table's auto-increment id becomes a counter
 * that only grows, so an id is never issued twice.
 */
module Clinic {
  import opened Records
  import opened Pagination
  import opened Listing

  /**
   * Every stored patient can be reached by paging: it is on some page between
   * 1 and `lastPage` of the newest-first listing.
   */
  lemma EveryPatientOnAPage(m: map<int, Patient>, hi: int, limit: int, k: int)
    requires PatientsKeyed(m) && limit >= 1
    requires forall j :: j in m ==> 1 <= j <= hi
    requires k in m
    ensures exists page :: 1 <= page <= LastPage(|m|, limit) && m[k] in Window(NewestFirst(m, hi), page, limit)
  {
    NewestFirstMembers(m, hi);
    NewestFirstLength(m, hi);
    KeysUpToAll(m, hi);
    var rows := NewestFirst(m, hi);
    var i :| 0 <= i < |rows| && rows[i] == m[k];
    RowOnPage(rows, limit, i);
    var page := i / limit + 1;
    assert Window(rows, page, limit)[i % limit] == m[k];
  }

  /**
   * Every stored medication can be reached by paging: it is on some page
   * between 1 and `lastPage` of the name-ordered listing.
   */
  lemma EveryMedicationOnAPage(m: map<int, Medication>, hi: int, limit: int, k: int)
    requires MedicationsKeyed(m) && limit >= 1
    requires forall j :: j in m ==> 1 <= j <= hi
    requires k in m
    ensures exists page :: 1 <= page <= LastPage(|m|, limit) && m[k] in Window(ByName(m, hi), page, limit)
  {
    ByNameMembers(m, hi);
    ByNameLength(m, hi);
    KeysUpToAll(m, hi);
    var rows := ByName(m, hi);
    var i :| 0 <= i < |rows| && rows[i] == m[k];
    RowOnPage(rows, limit, i);
    var page := i / limit + 1;
    assert Window(rows, page, limit)[i % limit] == m[k];
  }

  class Store {
    var patients: map<int, Patient>
    var medications: map<int, Medication>
    var prescriptions: map<int, Prescription>
    var nextPatientId: nat
    var nextMedicationId: nat
    var nextPrescriptionId: nat

    /**
     * The store's invariant: every row is stored under its own id, below its
     * table's counter; the required text columns are non-empty; and every
     * prescription references a stored patient and a stored medication.
     */
    ghost predicate Valid()
      reads this
    {
      && 1 <= nextPatientId && 1 <= nextMedicationId && 1 <= nextPrescriptionId
      && PatientsKeyed(patients)
      && (forall k :: k in patients ==> 1 <= k < nextPatientId)
      && (forall k :: k in patients ==> patients[k].firstName != [] && patients[k].lastName != [])
      && MedicationsKeyed(medications)
      && (forall k :: k in medications ==> 1 <= k < nextMedicationId)
      && (forall k :: k in medications ==> medications[k].name != [])
      && (forall k :: k in prescriptions ==> 1 <= k < nextPrescriptionId && prescriptions[k].id == k)
      && (forall k :: k in prescriptions ==> prescriptions[k].dosage != [] && prescriptions[k].frequency != [])
      && (forall k :: k in prescriptions ==> prescriptions[k].patientId in patients)
      && (forall k :: k in prescriptions ==> prescriptions[k].medicationId in medications)
    }

    /** A new database, such as the `:memory:` one of the test setup, after schema synchronisation. */
    constructor ()
      ensures Valid()
      ensures patients == map[] && medications == map[] && prescriptions == map[]
      ensures nextPatientId == 1 && nextMedicationId == 1 && nextPrescriptionId == 1
    {
      patients, medications, prescriptions := map[], map[], map[];
      nextPatientId, nextMedicationId, nextPrescriptionId := 1, 1, 1;
    }

    /** The ids of the prescriptions that belong to a patient (its `prescriptions` relation). */
    function PrescriptionsOf(patientId: int): set<int>
      reads this
    {
      set k | k in prescriptions && prescriptions[k].patientId == patientId
    }

    // ========================================================= patients

    /** Inserts a patient with the next id; the birth date is parsed into `dateOfBirth`. */
    method CreatePatient(dto: CreatePatientDto) returns (p: Patient)
      requires Valid() && AcceptedCreatePatient(dto)
      modifies this
      ensures Valid()
      ensures p.id == old(nextPatientId) && p.id !in old(patients)
      ensures p.firstName == dto.firstName && p.lastName == dto.lastName
      ensures p.dateOfBirth == ParseDate(dto.birthDate)
      ensures patients == old(patients)[p.id := p] && nextPatientId == old(nextPatientId) + 1
      ensures medications == old(medications) && nextMedicationId == old(nextMedicationId)
      ensures prescriptions == old(prescriptions) && nextPrescriptionId == old(nextPrescriptionId)
    {
      p := Patient(nextPatientId, dto.firstName, dto.lastName, ParseDate(dto.birthDate));
      patients := patients[p.id := p];
      nextPatientId := nextPatientId + 1;
    }

    /**
     * One page of the patients, newest first: the window at `(page - 1) * limit`
     * of the id-descending listing, in the pagination envelope, with the total
     * number of patients.
     */
    method FindAllPatients(page: int := 1, limit: int := 10) returns (r: Paginated<Patient>)
      requires Valid() && page >= 1 && limit >= 1
      ensures r.data == Window(NewestFirst(patients, nextPatientId - 1), page, limit)
      ensures r.meta.total == |patients| == |NewestFirst(patients, nextPatientId - 1)|
      ensures r.meta.page == page && r.meta.lastPage == LastPage(|patients|, limit)
      ensures |r.data| <= limit
      ensures IdsDescending(r.data)
      ensures forall x :: x in r.data ==> x.id in patients && patients[x.id] == x
    {
      var all := NewestFirst(patients, nextPatientId - 1);
      NewestFirstDescending(patients, nextPatientId - 1);
      NewestFirstMembers(patients, nextPatientId - 1);
      NewestFirstLength(patients, nextPatientId - 1);
      KeysUpToAll(patients, nextPatientId - 1);
      var rows := Window(all, page, limit);
      forall x | x in rows ensures x in all {
        var j :| 0 <= j < |rows| && rows[j] == x;
      }
      r := Paginate(rows, |patients|, page, limit);
    }

    /** The patient stored under `id`, or NotFound naming the id. */
    method FindOnePatient(id: int) returns (r: Result<Patient>)
      ensures r.Ok? <==> id in patients
      ensures r.Ok? ==> r.value == patients[id]
      ensures r.Err? ==> r.error == NotFound(Some(PatientNotFound(id)))
    {
      if id in patients {
        r := Ok(patients[id]);
      } else {
        r := Err(NotFound(Some(PatientNotFound(id))));
      }
    }

    /**
     * Overwrites the fields that were sent, one at a time, after the same lookup
     * as `FindOnePatient`; a missing id changes nothing.
     */
    method UpdatePatient(id: int, dto: UpdatePatientDto) returns (r: Result<Patient>)
      requires Valid() && AcceptedUpdatePatient(dto)
      modifies this
      ensures Valid()
      ensures r.Ok? <==> id in old(patients)
      ensures r.Err? ==> r.error == NotFound(Some(PatientNotFound(id))) && unchanged(this)
      ensures r.Ok? ==> r.value == UpdatedPatient(old(patients)[id], dto)
      ensures r.Ok? ==> patients == old(patients)[id := r.value]
      ensures nextPatientId == old(nextPatientId)
      ensures medications == old(medications) && nextMedicationId == old(nextMedicationId)
      ensures prescriptions == old(prescriptions) && nextPrescriptionId == old(nextPrescriptionId)
    {
      r := FindOnePatient(id);
      if r.Err? {
        return;
      }
      var patient := r.value;
      if dto.firstName.Present? {
        patient := patient.(firstName := dto.firstName.value);
      }
      if dto.lastName.Present? {
        patient := patient.(lastName := dto.lastName.value);
      }
      if dto.birthDate.Present? {
        patient := patient.(dateOfBirth := ParseDate(dto.birthDate.value));
      }
      patients := patients[id := patient];
      r := Ok(patient);
    }

    /**
     * Deletes a patient after the same lookup as `FindOnePatient`; the
     * `ON DELETE CASCADE` on the prescription's patient relation deletes the
     * patient's prescriptions with it, and nothing else.
     */
    method RemovePatient(id: int) returns (r: Result<()>)
      requires Valid()
      modifies this
      ensures Valid()
      ensures r.Ok? <==> id in old(patients)
      ensures r.Err? ==> r.error == NotFound(Some(PatientNotFound(id))) && unchanged(this)
      ensures r.Ok? ==> patients == old(patients) - {id}
      ensures forall k :: k in prescriptions <==> k in old(prescriptions) && old(prescriptions)[k].patientId != id
      ensures forall k :: k in prescriptions ==> prescriptions[k] == old(prescriptions)[k]
      ensures PrescriptionsOf(id) == {}
      ensures nextPatientId == old(nextPatientId)
      ensures medications == old(medications) && nextMedicationId == old(nextMedicationId)
      ensures nextPrescriptionId == old(nextPrescriptionId)
    {
      var found := FindOnePatient(id);
      if found.Err? {
        r := Err(found.error);
        return;
      }
      patients := patients - {id};
      prescriptions := map k | k in prescriptions && prescriptions[k].patientId != id :: prescriptions[k];
      r := Ok(());
    }

    // ========================================================= medications

    /** Inserts a medication with the next id, copying the payload's name and description. */
    method CreateMedication(dto: CreateMedicationDto) returns (m: Medication)
      requires Valid() && AcceptedCreateMedication(dto)
      modifies this
      ensures Valid()
      ensures m.id == old(nextMedicationId) && m.id !in old(medications)
      ensures m.name == dto.name && m.description == dto.description
      ensures medications == old(medications)[m.id := m] && nextMedicationId == old(nextMedicationId) + 1
      ensures patients == old(patients) && nextPatientId == old(nextPatientId)
      ensures prescriptions == old(prescriptions) && nextPrescriptionId == old(nextPrescriptionId)
    {
      m := Medication(nextMedicationId, dto.name, dto.description);
      medications := medications[m.id := m];
      nextMedicationId := nextMedicationId + 1;
    }

    /**
     * One page of the medications by name ascending: the window at
     * `(page - 1) * limit` of the name-ordered listing, with the total number
     * of medications.
     */
    method FindAllMedications(page: int := 1, limit: int := 10) returns (r: Paginated<Medication>)
      requires Valid() && page >= 1 && limit >= 1
      ensures r.data == Window(ByName(medications, nextMedicationId - 1), page, limit)
      ensures r.meta.total == |medications| == |ByName(medications, nextMedicationId - 1)|
      ensures r.meta.page == page && r.meta.lastPage == LastPage(|medications|, limit)
      ensures |r.data| <= limit
      ensures SortedByName(r.data)
      ensures forall x :: x in r.data ==> x.id in medications && medications[x.id] == x
    {
      var all := ByName(medications, nextMedicationId - 1);
      ByNameSorted(medications, nextMedicationId - 1);
      ByNameMembers(medications, nextMedicationId - 1);
      ByNameLength(medications, nextMedicationId - 1);
      KeysUpToAll(medications, nextMedicationId - 1);
      var rows := Window(all, page, limit);
      forall x | x in rows ensures x in all {
        var j :| 0 <= j < |rows| && rows[j] == x;
      }
      r := Paginate(rows, |medications|, page, limit);
    }

    /** The medication stored under `id`, or NotFound naming the id. */
    method FindOneMedication(id: int) returns (r: Result<Medication>)
      ensures r.Ok? <==> id in medications
      ensures r.Ok? ==> r.value == medications[id]
      ensures r.Err? ==> r.error == NotFound(Some(MedicationNotFound(id)))
    {
      if id in medications {
        r := Ok(medications[id]);
      } else {
        r := Err(NotFound(Some(MedicationNotFound(id))));
      }
    }

    /** Merges the sent fields over the stored medication; a missing id changes nothing. */
    method UpdateMedication(id: int, dto: UpdateMedicationDto) returns (r: Result<Medication>)
      requires Valid() && AcceptedUpdateMedication(dto)
      modifies this
      ensures Valid()
      ensures r.Ok? <==> id in old(medications)
      ensures r.Err? ==> r.error == NotFound(Some(MedicationNotFound(id))) && unchanged(this)
      ensures r.Ok? ==> r.value == MergedMedication(old(medications)[id], dto)
      ensures r.Ok? ==> medications == old(medications)[id := r.value]
      ensures nextMedicationId == old(nextMedicationId)
      ensures patients == old(patients) && nextPatientId == old(nextPatientId)
      ensures prescriptions == old(prescriptions) && nextPrescriptionId == old(nextPrescriptionId)
    {
      r := FindOneMedication(id);
      if r.Err? {
        return;
      }
      var medication := r.value;
      if dto.name.Present? {
        medication := medication.(name := dto.name.value);
      }
      if dto.description.Present? {
        medication := medication.(description := dto.description.value);
      }
      medications := medications[id := medication];
      r := Ok(medication);
    }

    /**
     * Deletes a medication after the same lookup as `FindOneMedication`. No
     * prescription may reference it (see the requires).
     */
    method RemoveMedication(id: int) returns (r: Result<()>)
      requires Valid()
      requires forall k :: k in prescriptions ==> prescriptions[k].medicationId != id
      modifies this
      ensures Valid()
      ensures r.Ok? <==> id in old(medications)
      ensures r.Err? ==> r.error == NotFound(Some(MedicationNotFound(id))) && unchanged(this)
      ensures r.Ok? ==> medications == old(medications) - {id}
      ensures nextMedicationId == old(nextMedicationId)
      ensures patients == old(patients) && nextPatientId == old(nextPatientId)
      ensures prescriptions == old(prescriptions) && nextPrescriptionId == old(nextPrescriptionId)
    {
      var found := FindOneMedication(id);
      if found.Err? {
        r := Err(found.error);
        return;
      }
      medications := medications - {id};
      r := Ok(());
    }

    // ========================================================= prescriptions

    /**
     * Looks up the patient, then the medication, and inserts a prescription
     * that references both only when both exist. The patient check runs first,
     * so it decides the error when both are missing. The two dates are not
     * compared.
     */
    method CreatePrescription(patientId: int, dto: CreatePrescriptionDto) returns (r: Result<Prescription>)
      requires Valid() && AcceptedCreatePrescription(dto)
      modifies this
      ensures Valid()
      ensures r.Ok? <==> patientId in old(patients) && dto.medicationId in old(medications)
      ensures patientId !in old(patients) ==> r == Err(NotFound(Some(PatientMissing)))
      ensures patientId in old(patients) && dto.medicationId !in old(medications) ==>
        r == Err(NotFound(Some(MedicationMissing)))
      ensures r.Err? ==> unchanged(this)
      ensures r.Ok? ==> r.value.id == old(nextPrescriptionId) && r.value.id !in old(prescriptions)
      ensures r.Ok? ==> r.value.patientId == patientId && r.value.medicationId == dto.medicationId
      ensures r.Ok? ==> r.value.dosage == dto.dosage && r.value.frequency == dto.frequency
      ensures r.Ok? ==> r.value.startDate == CalendarDate(dto.startDate) && r.value.endDate == CalendarDate(dto.endDate)
      ensures r.Ok? ==> prescriptions == old(prescriptions)[r.value.id := r.value]
      ensures r.Ok? ==> nextPrescriptionId == old(nextPrescriptionId) + 1
      ensures patients == old(patients) && nextPatientId == old(nextPatientId)
      ensures medications == old(medications) && nextMedicationId == old(nextMedicationId)
    {
      if patientId !in patients {
        r := Err(NotFound(Some(PatientMissing)));
        return;
      }
      var patient := patients[patientId];
      if dto.medicationId !in medications {
        r := Err(NotFound(Some(MedicationMissing)));
        return;
      }
      var medication := medications[dto.medicationId];
      // the dates are spread from the payload as the request strings, unparsed
      var p := Prescription(nextPrescriptionId, patient.id, medication.id, dto.dosage, dto.frequency,
                            CalendarDate(dto.startDate), CalendarDate(dto.endDate));
      prescriptions := prescriptions[p.id := p];
      nextPrescriptionId := nextPrescriptionId + 1;
      r := Ok(p);
    }

    /**
     * Deletes a prescription by its own id alone; a missing id raises a
     * NotFound without a message and changes nothing.
     */
    method RemovePrescription(id: int) returns (r: Result<()>)
      requires Valid()
      modifies this
      ensures Valid()
      ensures r.Ok? <==> id in old(prescriptions)
      ensures r.Err? ==> r.error == NotFound(None) && unchanged(this)
      ensures r.Ok? ==> prescriptions == old(prescriptions) - {id}
      ensures forall patientId :: id !in PrescriptionsOf(patientId)
      ensures nextPrescriptionId == old(nextPrescriptionId)
      ensures patients == old(patients) && nextPatientId == old(nextPatientId)
      ensures medications == old(medications) && nextMedicationId == old(nextMedicationId)
    {
      if id !in prescriptions {
        r := Err(NotFound(None));
        return;
      }
      prescriptions := prescriptions - {id};
      r := Ok(());
    }
  }
}
