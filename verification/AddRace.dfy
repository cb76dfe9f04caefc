/** Adding jobs from several connections at once: the check for a used name and the insertion are separate steps. */
module AddRace {
  import opened Scheduler

  /** The jobs, and those that have passed the check and wait for their insertion. */
  datatype Adding = Adding(jobs: seq<SchedJob>, checked: map<nat, SchedJob>)

  /** The critical sections of AddJob and RemoveJob; a call of AddJob has a number. */
  datatype Section = Check(id: nat, job: SchedJob) | Insert(id: nat) | Remove(name: string)

  function Do(s: Adding, c: Section, valid: string -> bool): Adding {
    match c
    case Check(id, j) =>
      if j.command != "scan" || HasJob(s.jobs, j.name) then s else s.(checked := s.checked[id := j])
    case Insert(id) =>
      if id !in s.checked then s
      else Adding(s.jobs + if valid(s.checked[id].schedule) then [s.checked[id]] else [], s.checked - {id})
    case Remove(name) => s.(jobs := WithoutJob(s.jobs, name))
  }

  function Run(s: Adding, sections: seq<Section>, valid: string -> bool): Adding {
    if sections == [] then s
    else Do(Run(s, sections[..|sections| - 1], valid), sections[|sections| - 1], valid)
  }

  lemma {:induction false} RunNext(s: Adding, sections: seq<Section>, n: nat, valid: string -> bool)
    requires n < |sections|
    ensures Run(s, sections[..n + 1], valid) == Do(Run(s, sections[..n], valid), sections[n], valid)
  {
    assert sections[..n + 1][..n] == sections[..n];
  }

  /** Nobody in between, the two sections are AddJob. */
  lemma {:induction false} Undisturbed(s: Adding, id: nat, j: SchedJob, valid: string -> bool)
    requires id !in s.checked
    ensures Do(Do(s, Check(id, j), valid), Insert(id), valid)
         == s.(jobs := if RefuseAdd(s.jobs, j, valid).None? then s.jobs + [j] else s.jobs)
  {
    assert s.checked[id := j] - {id} == s.checked;
  }

  /** An insertion that finds its name taken since it was checked. */
  predicate Clashes(s: Adding, c: Section, valid: string -> bool) {
    && c.Insert? && c.id in s.checked && valid(s.checked[c.id].schedule)
    && HasJob(s.jobs, s.checked[c.id].name)
  }

  lemma {:induction false} StepUnique(s: Adding, c: Section, valid: string -> bool)
    requires UniqueNames(s.jobs)
    ensures UniqueNames(Do(s, c, valid).jobs) <==> !Clashes(s, c, valid)
  {
    match c {
      case Check(_, _) =>
      case Insert(id) =>
        if id in s.checked && valid(s.checked[id].schedule) {
          Appended(s.jobs, s.checked[id]);
        }
      case Remove(name) =>
        WithoutUnique(s.jobs, name);
    }
  }

  lemma {:induction false} Appended(jobs: seq<SchedJob>, j: SchedJob)
    requires UniqueNames(jobs)
    ensures UniqueNames(jobs + [j]) <==> !HasJob(jobs, j.name)
  {
    if i :| 0 <= i < |jobs| && jobs[i].name == j.name {
      assert (jobs + [j])[i].name == (jobs + [j])[|jobs|].name;
    }
  }

  /** However calls interleave, names stay unique all along exactly when no insertion finds its name taken. */
  lemma {:induction false} UniqueExactly(s: Adding, sections: seq<Section>, valid: string -> bool)
    requires UniqueNames(s.jobs)
    ensures (forall n: nat :: n <= |sections| ==> UniqueNames(Run(s, sections[..n], valid).jobs))
       <==> (forall n: nat :: n < |sections| ==> !Clashes(Run(s, sections[..n], valid), sections[n], valid))
  {
    hide UniqueNames, Clashes, Do;
    if n: nat :| n < |sections| && Clashes(Run(s, sections[..n], valid), sections[n], valid) {
      var m := n + 1;
      RunNext(s, sections, n, valid);
      if UniqueNames(Run(s, sections[..n], valid).jobs) {
        StepUnique(Run(s, sections[..n], valid), sections[n], valid);
        assert !UniqueNames(Run(s, sections[..m], valid).jobs);
      }
    } else {
      UniqueUpTo(s, sections, |sections|, valid);
    }
  }

  lemma {:induction false} UniqueUpTo(s: Adding, sections: seq<Section>, n: nat, valid: string -> bool)
    requires UniqueNames(s.jobs) && n <= |sections|
    requires forall k: nat :: k < n ==> !Clashes(Run(s, sections[..k], valid), sections[k], valid)
    ensures forall k: nat :: k <= n ==> UniqueNames(Run(s, sections[..k], valid).jobs)
  {
    hide UniqueNames, Clashes, Do;
    if n > 0 {
      UniqueUpTo(s, sections, n - 1, valid);
      RunNext(s, sections, n - 1, valid);
      StepUnique(Run(s, sections[..n - 1], valid), sections[n - 1], valid);
    }
  }

  /** Pending names are unused and distinct. */
  ghost predicate Apart(s: Adding) {
    && (forall id :: id in s.checked ==> !HasJob(s.jobs, s.checked[id].name))
    && (forall id, id' :: id in s.checked && id' in s.checked && id != id' ==>
          s.checked[id].name != s.checked[id'].name)
  }

  /** A check of a name while another call has the same name checked and not yet inserted. */
  predicate Overlaps(s: Adding, c: Section) {
    c.Check? && exists id :: id in s.checked && id != c.id && s.checked[id].name == c.job.name
  }

  lemma {:induction false} StepApart(s: Adding, c: Section, valid: string -> bool)
    requires Apart(s) && !Overlaps(s, c)
    ensures Apart(Do(s, c, valid)) && !Clashes(s, c, valid)
  {
    match c {
      case Check(id, j) =>
      case Insert(id) =>
        if id in s.checked {
          forall name | HasJob(s.jobs + [s.checked[id]], name)
            ensures HasJob(s.jobs, name) || name == s.checked[id].name
          {}
        }
      case Remove(name) =>
        WithoutSome(s.jobs, name);
        forall n | HasJob(WithoutJob(s.jobs, name), n) ensures HasJob(s.jobs, n) {
          var i :| 0 <= i < |WithoutJob(s.jobs, name)| && WithoutJob(s.jobs, name)[i].name == n;
          assert WithoutJob(s.jobs, name)[i] in s.jobs;
        }
    }
  }

  /** Calls for the same name that do not overlap never clash, whatever else goes on. */
  lemma {:induction false} NoOverlapNoClash(s: Adding, sections: seq<Section>, valid: string -> bool)
    requires UniqueNames(s.jobs) && s.checked == map[]
    requires forall n: nat :: n < |sections| ==> !Overlaps(Run(s, sections[..n], valid), sections[n])
    ensures UniqueNames(Run(s, sections, valid).jobs) && Apart(Run(s, sections, valid))
  {
    hide UniqueNames, Apart, Clashes, Overlaps, Do;
    assert sections[..|sections|] == sections;
    if sections == [] {
      NothingPending(s);
    } else {
      var n := |sections| - 1;
      var init := sections[..n];
      assert forall k: nat :: k < n ==> init[..k] == sections[..k] && init[k] == sections[k];
      NoOverlapNoClash(s, init, valid);
      StepApart(Run(s, init, valid), sections[n], valid);
      StepUnique(Run(s, init, valid), sections[n], valid);
    }
  }

  lemma {:induction false} NothingPending(s: Adding)
    requires s.checked == map[]
    ensures Apart(s)
  {}

  /** Two calls for one name whose checks both come first leave two jobs of that name. */
  lemma {:induction false} BothInserted(s: Adding, j: SchedJob, valid: string -> bool)
    requires s.checked == map[] && RefuseAdd(s.jobs, j, valid).None?
    ensures Run(s, [Check(0, j), Check(1, j), Insert(0), Insert(1)], valid).jobs == s.jobs + [j, j]
  {
    hide HasJob;
    var sections := [Check(0, j), Check(1, j), Insert(0), Insert(1)];
    RunNext(s, sections, 0, valid);
    RunNext(s, sections, 1, valid);
    RunNext(s, sections, 2, valid);
    RunNext(s, sections, 3, valid);
    assert sections[..4] == sections && sections[..0] == [];
    assert s.jobs + [j] + [j] == s.jobs + [j, j];
  }
}
