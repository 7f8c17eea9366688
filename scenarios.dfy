/**
 * Client code written against the store's contracts alone, following the
 * end-to-end request sequences of the API: each assertion is a response the
 * contracts guarantee.
 */
module Scenarios {
  import opened Records
  import opened Clinic

  /** PATCH with only `firstName` keeps `lastName`; PATCH and DELETE of an unknown id are 404s. */
  method PatientUpdateScenario() {
    var store := new Store();
    var p := store.CreatePatient(CreatePatientDto("Guido", "Lastname", "1992-03-10"));
    var u := store.UpdatePatient(p.id, UpdatePatientDto(Present("Guido Updated"), Absent, Absent));
    assert u.Ok? && u.value.firstName == "Guido Updated" && u.value.lastName == "Lastname";
    assert u.value.dateOfBirth == ParseDate("1992-03-10");
    var missing := store.UpdatePatient(99999, UpdatePatientDto(Present("Updated"), Absent, Absent));
    assert missing == Err(NotFound(Some(PatientNotFound(99999))));
    var gone := store.RemovePatient(99999);
    assert gone.Err? && gone.error.message == Some(PatientNotFound(99999));
  }

  /** Deleting a patient deletes its prescriptions and leaves the medication; a later lookup is a 404. */
  method PatientCascadeScenario() {
    var store := new Store();
    var p := store.CreatePatient(CreatePatientDto("ToDelete", "Patient", "2000-01-01"));
    var m := store.CreateMedication(CreateMedicationDto("Vitamin D", None));
    var rx := store.CreatePrescription(p.id, CreatePrescriptionDto(m.id, "500mg", "Daily", "2024-01-01", "2024-12-31"));
    assert rx.Ok? && rx.value.id in store.PrescriptionsOf(p.id);
    var removed := store.RemovePatient(p.id);
    assert removed.Ok? && rx.value.id !in store.prescriptions;
    assert store.medications[m.id] == m;
    var found := store.FindOnePatient(p.id);
    assert found == Err(NotFound(Some(PatientNotFound(p.id))));
  }

  /** The patient check runs before the medication check; deleting a prescription detaches it. */
  method PrescriptionScenario() {
    var store := new Store();
    var m := store.CreateMedication(CreateMedicationDto("TestMed", None));
    var noPatient := store.CreatePrescription(99999, CreatePrescriptionDto(99999, "500mg", "8h", "2024-01-01", "2024-01-10"));
    assert noPatient == Err(NotFound(Some(PatientMissing)));
    var p := store.CreatePatient(CreatePatientDto("Guido", "Lastname", "1990-01-15"));
    var noMedication := store.CreatePrescription(p.id, CreatePrescriptionDto(99999, "500mg", "8h", "2024-01-01", "2024-01-10"));
    assert noMedication == Err(NotFound(Some(MedicationMissing)));
    var backwards := store.CreatePrescription(p.id, CreatePrescriptionDto(m.id, "500mg", "8h", "2024-01-10", "2024-01-01"));
    assert backwards.Ok?;
    var del := store.RemovePrescription(backwards.value.id);
    assert del.Ok? && backwards.value.id !in store.PrescriptionsOf(p.id);
    var again := store.RemovePrescription(backwards.value.id);
    assert again == Err(NotFound(None));
  }

  /** Listing an empty table gives an empty page with `lastPage` 0. */
  method EmptyListingScenario() {
    var store := new Store();
    var page := store.FindAllPatients();
    assert page.data == [] && page.meta == Pagination.Meta(0, 1, 0);
  }
}
