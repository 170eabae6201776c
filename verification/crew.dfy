/** The part of a driver that starting a trip reads (internal/domain/crew/driver.go). */
module Crew {
  import opened Basics

  datatype Status = Active | Suspended | Inactive

  datatype Certification = Certification(vehicleType: string, expiresAt: Time)

  datatype Driver = Driver(
    id: string,
    name: string,
    status: Status,
    licenseExpiresAt: Time,
    certifications: seq<Certification>)
  {
    function CanOperate(vehicleType: string, at: Time): Check {
      if status != Active || !(at < licenseExpiresAt) then Err(Conflict(Unavailable))
      else if exists i :: 0 <= i < |certifications| && certifications[i].vehicleType == vehicleType
                          && at < certifications[i].expiresAt
      then PASS
      else Err(Conflict(Unavailable))
    }
  }
}
