/** The flight status enumeration of the backend. */
module Enums {

  datatype FlightStatus = Scheduled | Boarding | Delayed | Departed | Arrived | Cancelled {

    /** The enumeration's string value: what the flights table stores. */
    function Value(): (v: string)
      ensures 0 < |v| <= 32
    {
      match this
      case Scheduled => "SCHEDULED"
      case Boarding => "BOARDING"
      case Delayed => "DELAYED"
      case Departed => "DEPARTED"
      case Arrived => "ARRIVED"
      case Cancelled => "CANCELLED"
    }
  }

  /** Distinct statuses are stored as distinct strings. */
  lemma ValueInjective(a: FlightStatus, b: FlightStatus)
    ensures a.Value() == b.Value() ==> a == b
  {
  }
}
