/**
 * `coveo_testing.temporary_resource.unique_id.TestId`: a readable, unique
 * enough id built from a friendly name, the process's timestamp, pid, host
 * and executor, and a per-name sequence number, each part sanitised and the
 * parts joined with `.`.
 *
 * The per-name counters (`TestId._sequence_count`, shared by every
 * instance) are the state of `TestIdRegistry`. The process constants are
 * inputs; the lock around the counter is not modelled.
 */
module UniqueId {
  import opened Text

  const Delimiter: char := '.'
  const Replacement: char := '-'

  /** The characters the pattern `[^a-zA-Z0-9_-]` leaves alone. */
  predicate Allowed(c: char)
  {
    'a' <= c <= 'z' || 'A' <= c <= 'Z' || '0' <= c <= '9' || c == '_' || c == '-'
  }

  /** `_isolate_and_sanitize_id_part`: every character outside `[a-zA-Z0-9_-]`, the delimiter included, becomes `-`. */
  function SanitizePart(s: string): (r: string)
    ensures |r| == |s|
    ensures forall i :: 0 <= i < |s| ==> r[i] == if Allowed(s[i]) then s[i] else Replacement
  {
    seq(|s|, i requires 0 <= i < |s| => if Allowed(s[i]) then s[i] else Replacement)
  }

  /** A sanitised part holds only allowed characters, so never the delimiter, and sanitising it again changes nothing. */
  lemma SanitizedAllowed(s: string)
    ensures forall i :: 0 <= i < |s| ==> Allowed(SanitizePart(s)[i])
    ensures Delimiter !in SanitizePart(s)
    ensures SanitizePart(SanitizePart(s)) == SanitizePart(s)
  {
  }

  /** A part made only of allowed characters is kept as it is. */
  lemma SanitizeKeepsAllowed(s: string)
    requires forall i :: 0 <= i < |s| ==> Allowed(s[i])
    ensures SanitizePart(s) == s
  {
  }

  /** The process-wide constants: `TIMESTAMP` already formatted as `%m%d%H%M%S`, `PID`, `HOST`, `EXECUTOR`. */
  datatype ProcessInfo = ProcessInfo(timestamp: string, pid: int, host: string, executor: string)

  datatype TestId = TestId(friendlyName: string, sequence: nat, id: string)

  /** The six parts of an id, sanitised, in order. */
  function Parts(friendlyName: string, info: ProcessInfo, sequence: nat): (parts: seq<string>)
    ensures |parts| == 6
    ensures forall i :: 0 <= i < 6 ==> Delimiter !in parts[i]
  {
    var raw := [friendlyName, info.timestamp, IntToString(info.pid), info.host, info.executor, IntToString(sequence)];
    var parts := seq(6, i requires 0 <= i < 6 => SanitizePart(raw[i]));
    assert forall i :: 0 <= i < 6 ==> Delimiter !in parts[i] by {
      forall i | 0 <= i < 6
        ensures Delimiter !in parts[i]
      {
        SanitizedAllowed(raw[i]);
      }
    }
    parts
  }

  /** The id: the six sanitised parts joined by the delimiter. */
  function MakeId(friendlyName: string, info: ProcessInfo, sequence: nat): (id: string)
    ensures |id| > |SanitizePart(friendlyName)|
    ensures id[..|SanitizePart(friendlyName)| + 1] == SanitizePart(friendlyName) + [Delimiter]
  {
    Join([Delimiter], Parts(friendlyName, info, sequence))
  }

  /** An id holds exactly five delimiters, and splitting it at them gives back the six sanitised parts. */
  lemma IdStructure(friendlyName: string, info: ProcessInfo, sequence: nat)
    ensures Count(MakeId(friendlyName, info, sequence), Delimiter) == 5
    ensures Split(MakeId(friendlyName, info, sequence), Delimiter) == Parts(friendlyName, info, sequence)
    ensures Split(MakeId(friendlyName, info, sequence), Delimiter)[0] == SanitizePart(friendlyName)
  {
    JoinCount(Delimiter, Parts(friendlyName, info, sequence));
    SplitJoin(Delimiter, Parts(friendlyName, info, sequence));
  }

  /** `TestId._sequence_count`: the next sequence number of each friendly name seen so far. */
  class TestIdRegistry {
    var sequenceCount: map<string, nat>

    constructor ()
      ensures sequenceCount == map[]
    {
      sequenceCount := map[];
    }

    /** The sequence number the next `TestId` for `name` gets: 0 for a new name. */
    function NextSequence(name: string): nat
      reads this
    {
      if name in sequenceCount then sequenceCount[name] else 0
    }

    /**
     * `TestId.__init__`: take the next number of the name's counter (starting
     * one at 0 for a new name) and build the id.
     */
    method NewTestId(friendlyName: string, info: ProcessInfo) returns (t: TestId)
      modifies this
      ensures t.friendlyName == friendlyName
      ensures t.sequence == old(NextSequence(friendlyName))
      ensures t.id == MakeId(friendlyName, info, t.sequence)
      ensures sequenceCount == old(sequenceCount)[friendlyName := t.sequence + 1]
      ensures NextSequence(friendlyName) == t.sequence + 1
      ensures forall name :: name != friendlyName ==> NextSequence(name) == old(NextSequence(name))
    {
      var sequence := NextSequence(friendlyName);
      sequenceCount := sequenceCount[friendlyName := sequence + 1];
      var parts := Parts(friendlyName, info, sequence);
      t := TestId(friendlyName, sequence, Join([Delimiter], parts));
    }
  }
}
