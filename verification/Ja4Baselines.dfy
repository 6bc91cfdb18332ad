/** JA4 baselines: the first fingerprint recorded for a process name is the one others are compared with. */
module Ja4Baselines {
  import opened Text
  import opened Domain

  /** The row takes part in fingerprinting: it has a fingerprint and a known process. */
  predicate IsFingerprinted(row: Row) {
    row.ja4.Some? && !EqualsIgnoringCase(row.process, UNKNOWN_PROCESS)
  }

  function BaselinesWith(baselines: map<string, string>, row: Row): map<string, string> {
    if !IsFingerprinted(row) || Lower(row.process) in baselines then baselines
    else baselines[Lower(row.process) := row.ja4.value]
  }

  function Classified(baselines: map<string, string>, row: Row): Row {
    if !IsFingerprinted(row) then row
    else row.(ja4Outlier := BaselinesWith(baselines, row)[Lower(row.process)] != row.ja4.value)
  }

  /** The baselines after classifying the rows of a history in order. */
  function BaselinesAfter(history: seq<Row>): map<string, string> {
    if history == [] then map[]
    else BaselinesWith(BaselinesAfter(history[..|history| - 1]), history[|history| - 1])
  }

  /** The row has a fingerprint, and `name` is its lowercased process name, which is a known one. */
  predicate Carries(row: Row, name: string) {
    row.ja4.Some? && Lower(row.process) == name && name != "unknown process"
  }

  lemma FingerprintedCarriesName(row: Row, name: string)
    ensures Carries(row, name) <==> IsFingerprinted(row) && Lower(row.process) == name
  {
    assert Lower(UNKNOWN_PROCESS) == "unknown process";
  }

  /** Row `i` of the history is the first fingerprinted one whose lowercased process name is `name`. */
  predicate IsFirst(history: seq<Row>, name: string, i: int) {
    0 <= i < |history| && Carries(history[i], name) && forall j | 0 <= j < i :: !Carries(history[j], name)
  }

  /** The baselines are exactly the first fingerprints of the history, by lowercased process name. */
  lemma {:induction false} BaselineIsFirstSeen(history: seq<Row>)
    ensures forall name :: name in BaselinesAfter(history) <==> exists i :: IsFirst(history, name, i)
    ensures forall name, i | IsFirst(history, name, i) :: BaselinesAfter(history)[name] == history[i].ja4.value
  {
    if history != [] {
      var before, row := history[..|history| - 1], history[|history| - 1];
      assert history == before + [row];
      BaselineIsFirstSeen(before);
      forall name
        ensures name in BaselinesAfter(history) <==> exists i :: IsFirst(history, name, i)
        ensures forall i | IsFirst(history, name, i) :: BaselinesAfter(history)[name] == history[i].ja4.value
      {
        hide IsFingerprinted, Lower, IsFirst, Carries;
        FingerprintedCarriesName(row, name);
        FirstSnoc(before, row, name);
        if i :| IsFirst(before, name, i) { assert IsFirst(history, name, i); }
        FirstIsIndex(history, name);
      }
    }
  }

  lemma FirstIsIndex(history: seq<Row>, name: string)
    ensures forall i | IsFirst(history, name, i) :: 0 <= i < |history| && history[i].ja4.Some?
    ensures forall i, j | IsFirst(history, name, i) && IsFirst(history, name, j) :: i == j
  {
  }

  lemma FirstSnoc(before: seq<Row>, row: Row, name: string)
    ensures forall i :: IsFirst(before, name, i) <==> i < |before| && IsFirst(before + [row], name, i)
    ensures IsFirst(before + [row], name, |before|) <==>
              Carries(row, name) && !exists i :: IsFirst(before, name, i)
  {
    hide Carries;
    var history := before + [row];
    assert forall j | 0 <= j < |before| :: before[j] == history[j];
    FirstExists(before, name, |before|);
  }

  lemma {:induction false} FirstExists(history: seq<Row>, name: string, n: nat)
    requires n <= |history|
    ensures (exists j | 0 <= j < n :: Carries(history[j], name))
            ==> exists i :: IsFirst(history, name, i)
  {
    hide Carries;
    if n > 0 {
      FirstExists(history, name, n - 1);
      if Carries(history[n - 1], name) && forall j | 0 <= j < n - 1 :: !Carries(history[j], name) {
        assert IsFirst(history, name, n - 1);
      }
    }
  }

  /**
   A row that arrives unflagged is flagged exactly when it has a fingerprint, its process is known, and the
   first fingerprint recorded under the same lowercased name differs.
   */
  lemma OutlierDiffersFromFirst(history: seq<Row>, row: Row)
    requires !row.ja4Outlier
    ensures Classified(BaselinesAfter(history), row).ja4Outlier <==>
              && row.ja4.Some? && Lower(row.process) != "unknown process"
              && exists i :: IsFirst(history, Lower(row.process), i) && history[i].ja4 != row.ja4
    ensures Classified(BaselinesAfter(history), row).(ja4Outlier := false) == row
  {
    BaselineIsFirstSeen(history);
    FingerprintedCarriesName(row, Lower(row.process));
    if IsFingerprinted(row) && Lower(row.process) in BaselinesAfter(history) {
      var i :| IsFirst(history, Lower(row.process), i);
    }
  }
}
