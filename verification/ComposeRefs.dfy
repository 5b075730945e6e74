/** The project names that docker compose deployments go by (providers/deploy/compose/compose.go). */
module ComposeRefs {
  import opened Calls
  import opened Labels
  import ApplyOutcome
  import CrashRecovery
  import Lifecycle
  import RowHistory
  import Teardown

  const MaxProjectNameLength := 63

  function ProjectName(project: string, branch: string, lower: char -> char, hash: string -> string): string {
    "ramify-" + Normalize(project + "-" + branch, MaxProjectNameLength - |"ramify-"|, lower, hash)
  }

  /** The reference a deployment gets: the previous one if there is any. */
  function RefFor(project: string, branch: string, previous: string, lower: char -> char, hash: string -> string): string {
    if previous != "" then previous else ProjectName(project, branch, lower, hash)
  }

  /**
   A first deployment's reference is "ramify-" and a label, of at most 63 characters, and every later one repeats it, even
   should the rule for naming have changed.
   */
  lemma RefsAreStable(project: string, branch: string, lower: char -> char, hash: string -> string,
                      lower': char -> char, hash': string -> string)
    requires ShortHash(hash)
    ensures var ref := RefFor(project, branch, "", lower, hash);
            && Label(ref) && |ref| <= 63 && "ramify-" <= ref
            && RefFor(project, branch, ref, lower', hash') == ref
  {
    hide Normalize;
    var text := Normalize(project + "-" + branch, MaxProjectNameLength - |"ramify-"|, lower, hash);
    NormalizeIsLabel(project + "-" + branch, MaxProjectNameLength - |"ramify-"|, lower, hash);
    assert Label("ramify");
    Joined("ramify", text);
    assert "ramify-" == "ramify" + "-";
  }

  /** Main result: with the compose provider, redeploying keeps the reference and no reference is empty. */
  lemma ComposeKeepsRefs(c: Config, lower: char -> char, hash: string -> string)
    requires ShortHash(hash) && ValidConfig(c)
    requires forall project, branch, previous ::
               c.refOf(project, branch, previous) == RefFor(project, branch, previous, lower, hash)
    ensures CrashRecovery.RefsStable(c) && RowHistory.RefsGiven(c)
  {
    hide ProjectName, ShortHash;
    forall project, branch, previous
      ensures RefFor(project, branch, previous, lower, hash) != ""
              && RefFor(project, branch, RefFor(project, branch, previous, lower, hash), lower, hash)
                 == RefFor(project, branch, previous, lower, hash)
    {
      RefsAreStable(project, branch, lower, hash, lower, hash);
    }
  }

  // ---------- references that clash ----------

  function Named(project: string, branch: string): string {
    project + "-" + branch
  }

  const LabelRoom := MaxProjectNameLength - |"ramify-"|

  predicate Fits(project: string, branch: string, lower: char -> char) {
    0 < |Cleaned(Named(project, branch), lower)| <= LabelRoom
  }

  /**
   Main result: two environments get the same first reference exactly if their joined names normalize alike; where both
   fit, exactly if they are spelled alike up to case and separators; where both are cut, only if their hashes agree.
   */
  lemma SharedReferences(project: string, branch: string, project': string, branch': string,
                         lower: char -> char, hash: string -> string)
    requires ShortHash(hash)
    ensures var shared := RefFor(project, branch, "", lower, hash) == RefFor(project', branch', "", lower, hash);
            var name, name' := Named(project, branch), Named(project', branch');
            && (shared <==> Normalize(name, 56, lower, hash) == Normalize(name', 56, lower, hash))
            && (Fits(project, branch, lower) && Fits(project', branch', lower) ==>
                  (shared <==> Cleaned(name, lower) == Cleaned(name', lower)))
            && (shared && Cut(name, LabelRoom, lower) && Cut(name', LabelRoom, lower) ==> hash(name) == hash(name'))
  {
    hide Cleaned, ShortHash;
    var name, name' := Named(project, branch), Named(project', branch');
    var l, l' := Normalize(name, LabelRoom, lower, hash), Normalize(name', LabelRoom, lower, hash);
    SamePrefix("ramify-", l, l');
    if l == l' && Cut(name, LabelRoom, lower) && Cut(name', LabelRoom, lower) {
      CutLabelsTellHashesApart(name, name', LabelRoom, lower, hash);
    }
  }

  lemma SamePrefix(prefix: string, a: string, b: string)
    ensures prefix + a == prefix + b <==> a == b
  {
    assert (prefix + a)[|prefix|..] == a && (prefix + b)[|prefix|..] == b;
  }

  /** Where a dash ends the project and the branch begins is lost: such neighbours always share their reference. */
  lemma DashesClash(a: string, b: string, d: string, lower: char -> char, hash: string -> string)
    ensures RefFor(a, b + "-" + d, "", lower, hash) == RefFor(a + "-" + b, d, "", lower, hash)
  {
    hide Normalize;
    assert a + "-" + (b + "-" + d) == a + "-" + b + "-" + d;
  }

  /** So tearing down the one completely takes down the deployment of the other, whose row still counts on it. */
  lemma ClashTakesNeighbourDown(c: Config, o: Oracle, w: World, env: Environment, other: Environment,
                                a: string, b: string, d: string, lower: char -> char, hash: string -> string)
    requires Teardown.DistinctIds(w.dnsRows) && ApplyOutcome.Fresh(w, env) && env.status == Transitions.Destroying
    requires ApplyOutcome.Fresh(w, other) && env.id == EnvId(a, b + "-" + d) && other.id == EnvId(a + "-" + b, d)
    requires ShortHash(hash)
    requires env.deployRef == RefFor(a, b + "-" + d, "", lower, hash)
    requires other.deployRef == RefFor(a + "-" + b, d, "", lower, hash) && other.deployRef in w.deployments
    requires Lifecycle.DoDestroy(c, o, w, env).out.None?
    ensures var w' := Lifecycle.DoDestroy(c, o, w, env).w;
      ApplyOutcome.Fresh(w', other) && other.deployRef !in w'.deployments
  {
    hide Lifecycle.DoDestroy, RefFor;
    DashesClash(a, b, d, lower, hash);
    NotEmptyRef(a + "-" + b, d, lower, hash);
    assert |a + "-" + b| != |a|;
    Teardown.NeighbourStands(c, o, w, env, other);
  }

  lemma NotEmptyRef(project: string, branch: string, lower: char -> char, hash: string -> string)
    requires ShortHash(hash)
    ensures RefFor(project, branch, "", lower, hash) != ""
  {
  }
}
