/** The fields of the app-wide model object that the core reads and writes:
    the crew shown on the dashboard and the persisted daily fatigue level. */
module AppModel {
  import opened HourlyObservations

  class ModelData {
    var crew: seq<Peer>
    /** Persisted `fatigueLevel`; -1 until a first value is known. */
    var fatigueLevel: int
    /** Persisted `lastResetDay`: the day of the month of the last reset, 0 if never. */
    var lastResetDay: int

    constructor ()
      ensures crew == [] && fatigueLevel == -1 && lastResetDay == 0
    {
      crew := [];
      fatigueLevel := -1;
      lastResetDay := 0;
    }
  }
}
