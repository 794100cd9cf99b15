/** Which closed audit files are removed: crates/ownpg-core/src/audit.rs. */
module Pruning {
  import opened Basics

  /** A closed file of the same log, and when it was last written. */
  datatype Closed = Closed(name: string, modified: int)

  /** The files are listed from the oldest on, each once. */
  predicate Listed(files: seq<Closed>) {
    && (forall i, j :: 0 <= i < j < |files| ==> files[i].modified <= files[j].modified)
    && (forall i, j :: 0 <= i < j < |files| ==> files[i].name != files[j].name)
  }

  /** How many files are too many; a limit of zero is none. */
  function OverCount(files: seq<Closed>, keepFiles: nat): nat {
    if keepFiles > 0 && |files| > keepFiles then |files| - keepFiles else 0
  }

  predicate Expired(file: Closed, cutoff: Option<int>) {
    cutoff.Some? && file.modified < cutoff.value
  }

  /** The file is too old, or among those that are too many. */
  predicate Due(files: seq<Closed>, p: nat, cutoff: Option<int>, keepFiles: nat)
    requires p < |files|
  {
    Expired(files[p], cutoff) || p < OverCount(files, keepFiles)
  }

  /** The name is that of one of the first n files. */
  predicate Names(files: seq<Closed>, n: nat, name: string)
    requires n <= |files|
  {
    n > 0 && (files[n - 1].name == name || Names(files, n - 1, name))
  }

  lemma {:induction false} NamesAt(files: seq<Closed>, n: nat, name: string) returns (p: nat)
    requires n <= |files| && Names(files, n, name)
    ensures p < n && files[p].name == name
  {
    if files[n - 1].name == name {
      p := n - 1;
    } else {
      p := NamesAt(files, n - 1, name);
    }
  }

  lemma NewName(files: seq<Closed>, n: nat)
    requires Listed(files) && n < |files|
    ensures !Names(files, n, files[n].name)
  {
    if Names(files, n, files[n].name) { var _ := NamesAt(files, n, files[n].name); }
  }

  /** Tries to remove every file that is due; one that is locked or cannot be removed stays. */
  method RemoveDue(files: seq<Closed>, cutoff: Option<int>, keepFiles: nat) returns (removed: set<string>, failed: set<string>)
    requires Listed(files)
    ensures forall p: nat :: p < |files| ==> (files[p].name in removed + failed <==> Due(files, p, cutoff, keepFiles))
    ensures removed * failed == {}
    ensures forall name :: name in removed + failed ==> Names(files, |files|, name)
  {
    removed, failed := {}, {};
    for p := 0 to |files|
      invariant removed * failed == {}
      invariant forall q: nat :: q < p ==> (files[q].name in removed + failed <==> Due(files, q, cutoff, keepFiles))
      invariant forall name :: name in removed + failed ==> Names(files, p, name)
    {
      NewName(files, p);
      if Expired(files[p], cutoff) || p < OverCount(files, keepFiles) {
        var ok: bool := *;
        if ok {
          removed := removed + {files[p].name};
        } else {
          failed := failed + {files[p].name};
        }
      }
    }
  }

  /** What stays are the newest files: with a file all newer ones stay. */
  lemma NewestStay(files: seq<Closed>, p: nat, q: nat, cutoff: Option<int>, keepFiles: nat)
    requires Listed(files) && p <= q < |files| && !Due(files, p, cutoff, keepFiles)
    ensures !Due(files, q, cutoff, keepFiles)
  {
    assert p < q ==> files[p].modified <= files[q].modified;
  }

  lemma {:induction false} FewPositions(positions: set<nat>, low: nat, high: nat)
    requires low <= high && forall p :: p in positions ==> low <= p < high
    ensures |positions| <= high - low
    decreases high - low
  {
    if low < high {
      FewPositions(positions - {low}, low + 1, high);
    } else {
      assert positions == {};
    }
  }

  /** No more files stay than the limit allows, and none that is too old. */
  lemma WhatStaysIsWithinLimits(files: seq<Closed>, stays: set<nat>, cutoff: Option<int>, keepFiles: nat)
    requires forall p :: p in stays ==> p < |files| && !Due(files, p, cutoff, keepFiles)
    ensures keepFiles > 0 ==> |stays| <= keepFiles
    ensures cutoff.Some? ==> forall p :: p in stays ==> files[p].modified >= cutoff.value
  {
    FewPositions(stays, OverCount(files, keepFiles), |files|);
  }

  /** And whatever is within both limits stays: as many files as are allowed, if they are new enough. */
  lemma AllowedStays(files: seq<Closed>, p: nat, cutoff: Option<int>, keepFiles: nat)
    requires p < |files|
    requires keepFiles > 0 ==> |files| - p <= keepFiles
    requires cutoff.Some? ==> files[p].modified >= cutoff.value
    ensures !Due(files, p, cutoff, keepFiles)
  {
  }
}
