/** The front end's doctor service (src/services/doctorService.ts): the
    `Authorization` header it attaches to every request and the two
    mappers from a backend doctor record to the views the dashboard
    lists. */
module DoctorService {
  import opened Js
  import Middleware

  /** `token ? `Bearer ${token}` : ''` over the token read from local
      storage (`null` when nothing is stored). */
  function AuthorizationHeader(token: Option<string>): (h: string)
    ensures Present(token) ==> h == Middleware.BearerPrefix + token.value
    ensures !Present(token) <==> h == ""
  {
    if Present(token) then Middleware.BearerPrefix + token.value else ""
  }

  /** The header the service sends is the one the backend middleware reads:
      a stored token comes back out of it unchanged, and without one the
      request carries no token at all. */
  lemma StoredTokenReachesBackend(token: Option<string>)
    ensures Present(token) ==> Middleware.BearerToken(Some(AuthorizationHeader(token))) == Some(token.value)
    ensures !Present(token) ==> Middleware.BearerToken(Some(AuthorizationHeader(token))).None?
  {
    if Present(token) {
      Middleware.BearerRoundTrip(token.value);
    }
  }

  /** A row of the `doctors` table as the API returns it. Columns the row may
      lack (or that are `undefined` in it) are fields; the experience columns
      carry the text their number prints as. */
  datatype Doctor = Doctor(
    id: nat,
    fullName: string,
    specialization: string,
    createdAt: string,
    updatedAt: Field,
    status: Field,
    email: string,
    yearsOfExperience: Field,
    yearOfExperience: Field,
    countryCode: Field,
    mobileNumber: Field,
    licenseNumber: string,
    clinicAddress: string)

  /** An entry of the doctor-applications list. */
  datatype Application = Application(
    id: string,
    doctorName: string,
    specialization: string,
    dateOfApplication: string,
    status: string,
    email: string,
    experience: string,
    countryCode: Field,
    mobileNumber: Field,
    licenseNumber: string,
    clinicAddress: string)

  /** An entry of the doctor-management list. */
  datatype ManagedDoctor = ManagedDoctor(
    id: string,
    name: string,
    specialization: string,
    status: string,
    dateJoined: string,
    email: string,
    phone: string,
    licenseNumber: string,
    experience: string,
    clinicAddress: string)

  /** How an awaited service call ended: it resolved, or it threw, with the
      thrown `Error`'s message or, for anything else thrown, none. */
  datatype Call = Resolved | Threw(message: Option<string>)

  const ExperienceSuffix: string := " years"

  /** `mapDoctorToApplication`. */
  function MapDoctorToApplication(doctor: Doctor): (a: Application)
    ensures DecimalValue(a.id) == doctor.id
    ensures a.status == (if Truthy(doctor.status) then doctor.status.text else "new")
    ensures a.status != ""
    ensures a.experience == Template(doctor.yearsOfExperience) + ExperienceSuffix
    ensures a.doctorName == doctor.fullName && a.specialization == doctor.specialization
    ensures a.dateOfApplication == doctor.createdAt && a.email == doctor.email
    ensures a.countryCode == doctor.countryCode && a.mobileNumber == doctor.mobileNumber
    ensures a.licenseNumber == doctor.licenseNumber && a.clinicAddress == doctor.clinicAddress
  {
    DecimalRoundTrip(doctor.id);
    Application(DecimalString(doctor.id), doctor.fullName, doctor.specialization, doctor.createdAt,
                OrElse(doctor.status, "new"), doctor.email,
                Template(doctor.yearsOfExperience) + ExperienceSuffix,
                doctor.countryCode, doctor.mobileNumber, doctor.licenseNumber, doctor.clinicAddress)
  }

  /** `mapDoctorToManaged`. */
  function MapDoctorToManaged(doctor: Doctor): (m: ManagedDoctor)
    ensures DecimalValue(m.id) == doctor.id
    ensures m.status == "resigned" <==> doctor.status == Given("resigned")
    ensures m.status == "active" <==> doctor.status != Given("resigned")
    ensures m.dateJoined == (if Truthy(doctor.updatedAt) then doctor.updatedAt.text else doctor.createdAt)
    ensures m.phone == Template(doctor.countryCode) + " " + Template(doctor.mobileNumber)
    ensures m.experience == Template(doctor.yearOfExperience) + ExperienceSuffix
    ensures m.name == doctor.fullName && m.specialization == doctor.specialization
    ensures m.email == doctor.email && m.licenseNumber == doctor.licenseNumber
    ensures m.clinicAddress == doctor.clinicAddress
  {
    DecimalRoundTrip(doctor.id);
    ManagedDoctor(DecimalString(doctor.id), doctor.fullName, doctor.specialization,
                  if doctor.status == Given("resigned") then "resigned" else "active",
                  OrElse(doctor.updatedAt, doctor.createdAt), doctor.email,
                  Template(doctor.countryCode) + " " + Template(doctor.mobileNumber),
                  doctor.licenseNumber, Template(doctor.yearOfExperience) + ExperienceSuffix,
                  doctor.clinicAddress)
  }

  /** Both views keep distinct doctors apart: the string ids the components
      compare are equal exactly when the numeric ids are. */
  lemma MappedIdsIdentifyDoctors(d1: Doctor, d2: Doctor)
    ensures MapDoctorToApplication(d1).id == MapDoctorToApplication(d2).id <==> d1.id == d2.id
    ensures MapDoctorToManaged(d1).id == MapDoctorToManaged(d2).id <==> d1.id == d2.id
    ensures MapDoctorToApplication(d1).id == MapDoctorToManaged(d1).id
  {
    if MapDoctorToApplication(d1).id == MapDoctorToApplication(d2).id {
      DecimalStringInjective(d1.id, d2.id);
    }
    if MapDoctorToManaged(d1).id == MapDoctorToManaged(d2).id {
      DecimalStringInjective(d1.id, d2.id);
    }
  }

  /** The two mappers read different experience columns: a record that
      carries only `years_of_experience` shows its value in the
      applications list but "undefined years" in the management list. */
  lemma ExperienceColumnsDiffer(doctor: Doctor, years: string)
    requires doctor.yearsOfExperience == Given(years) && doctor.yearOfExperience == Absent
    ensures MapDoctorToApplication(doctor).experience == years + " years"
    ensures MapDoctorToManaged(doctor).experience == "undefined years"
  {
  }

  /** An approved doctor is listed as active in the management view and keeps
      its status in the applications view. */
  lemma ApprovedDoctorViews(doctor: Doctor)
    requires doctor.status == Given("approved")
    ensures MapDoctorToApplication(doctor).status == "approved"
    ensures MapDoctorToManaged(doctor).status == "active"
  {
  }
}
