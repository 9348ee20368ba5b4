/**
 * Feature authorization in xo-server: plan levels, the table of the minimum
 * plan each feature needs, and the check that rejects a feature when the
 * current plan is below that minimum.
 */
module Authorization {
  import opened Wrappers
  import opened Text

  /** The plan levels, in increasing order. */
  const FREE := 1
  const STARTER := 2
  const ENTREPRISE := 3
  const PREMIUM := 4
  const OPEN := 5

  /** `TRIAL_LEVELS`: each plan's name and level. */
  const TrialLevels: map<string, int> :=
    map["FREE" := FREE, "STARTER" := STARTER, "ENTREPRISE" := ENTREPRISE, "PREMIUM" := PREMIUM, "OPEN" := OPEN]

  /** A value of the authorization table: a minimum plan, or a nested table of feature codes. */
  datatype Rule = Plan(level: int) | Table(rules: map<string, Rule>)

  /** `AUTHORIZATIONS`. */
  const Authorizations: Rule := Table(map[
    "BACKUP" := Table(map[
      "DELTA" := Plan(STARTER),
      "DELTA_REPLICATION" := Plan(ENTREPRISE),
      "FULL" := Plan(STARTER),
      "METADATA" := Plan(ENTREPRISE),
      "WITH_RAM" := Plan(ENTREPRISE),
      "S3" := Plan(ENTREPRISE)]),
    "DOCKER" := Plan(STARTER),
    "EXPORT" := Table(map["XVA" := Plan(STARTER)])])

  /** Lodash `get` along a path of keys: absent when a key is missing or a plan has no keys. */
  function Get(rule: Rule, path: seq<string>): Option<Rule>
    decreases path
  {
    if path == [] then Some(rule)
    else match rule
      case Plan(_) => None
      case Table(rules) => if path[0] in rules then Get(rules[path[0]], path[1..]) else None
  }

  /** Looking up a longer path is looking up its first part, then the rest from what was found. */
  lemma {:induction false} GetAppend(rule: Rule, p: seq<string>, q: seq<string>)
    ensures Get(rule, p + q) == if Get(rule, p).Some? then Get(Get(rule, p).value, q) else None
    decreases p
  {
    if p != [] && rule.Table? && p[0] in rule.rules {
      assert (p + q)[1..] == p[1..] + q;
      GetAppend(rule.rules[p[0]], p[1..], q);
    } else if p == [] {
      assert p + q == q;
    }
  }

  /** `keys` is a path that a feature code spells with dots: its keys hold no dot. */
  predicate DotFree(keys: seq<string>)
  {
    forall i :: 0 <= i < |keys| ==> '.' !in keys[i]
  }

  /** Every code is spelled by exactly one dot-free path: the pieces between its dots. */
  lemma {:induction false} SpelledBy(featureCode: string)
    ensures DotFree(Split(featureCode, '.')) && Join(Split(featureCode, '.'), '.') == featureCode
    ensures forall keys {:trigger Join(keys, '.')} :: |keys| > 0 && DotFree(keys) && Join(keys, '.') == featureCode ==>
      keys == Split(featureCode, '.')
  {
    SplitPieces(featureCode, '.');
    JoinSplit(featureCode, '.');
    forall keys | |keys| > 0 && DotFree(keys) && Join(keys, '.') == featureCode
      ensures keys == Split(featureCode, '.')
    {
      SplitJoin(keys, '.');
    }
  }

  /** The error the check throws. */
  datatype AuthError =
    | AssertionError(message: string)
    | FeatureUnauthorized(featureCode: string, currentPlan: int, minPlan: int)

  /**
   * `#getMinPlan(featureCode)`: what the table holds at the keys the code
   * spells between its dots, or a failed assertion when it holds nothing there.
   */
  function GetMinPlan(featureCode: string): (r: Result<Rule, AuthError>)
    ensures forall keys {:trigger Join(keys, '.')} :: |keys| > 0 && DotFree(keys) && Join(keys, '.') == featureCode ==>
      match Get(Authorizations, keys)
      case Some(rule) => r == Success(rule)
      case None => r.Failure? && r.error.AssertionError?
  {
    SpelledBy(featureCode);
    match Get(Authorizations, Split(featureCode, '.'))
    case Some(rule) => Success(rule)
    case None => Failure(AssertionError(featureCode + " is not defined in the AUTHORISATIONS object"))
  }

  /** `#getCurrentPlan()`: returns STARTER on its first line. */
  function GetCurrentPlan(): (r: int)
    ensures r == STARTER
  {
    STARTER
  }

  /**
   * `checkFeatureAuthorization` for a given current plan. A nested table in
   * place of a plan never rejects: comparing a number with an object is false
   * in JavaScript.
   */
  function CheckFeatureAuthorizationWith(featureCode: string, currentPlan: int): (r: Outcome<AuthError>)
    ensures forall keys {:trigger Join(keys, '.')} :: |keys| > 0 && DotFree(keys) && Join(keys, '.') == featureCode ==>
      match Get(Authorizations, keys)
      case None => r.Fail? && r.error.AssertionError?
      case Some(Table(_)) => r == Pass
      case Some(Plan(minPlan)) =>
        r == if currentPlan < minPlan then Fail(FeatureUnauthorized(featureCode, currentPlan, minPlan)) else Pass
  {
    match GetMinPlan(featureCode)
    case Failure(e) => Fail(e)
    case Success(Table(_)) => Pass
    case Success(Plan(minPlan)) =>
      if currentPlan < minPlan then Fail(FeatureUnauthorized(featureCode, currentPlan, minPlan)) else Pass
  }

  /** `checkFeatureAuthorization(featureCode)`, with the plan `#getCurrentPlan` supplies. */
  function CheckFeatureAuthorization(featureCode: string): (r: Outcome<AuthError>)
    ensures r == CheckFeatureAuthorizationWith(featureCode, STARTER)
  {
    CheckFeatureAuthorizationWith(featureCode, GetCurrentPlan())
  }

  // ---------------------------------------------------------------------
  // Properties
  // ---------------------------------------------------------------------

  /** The levels are strictly increasing, and `TRIAL_LEVELS` names exactly them. */
  lemma PlanLevelsIncreasing()
    ensures FREE < STARTER < ENTREPRISE < PREMIUM < OPEN
    ensures TrialLevels.Keys == {"FREE", "STARTER", "ENTREPRISE", "PREMIUM", "OPEN"}
    ensures TrialLevels["FREE"] == FREE && TrialLevels["STARTER"] == STARTER && TrialLevels["OPEN"] == OPEN
    ensures TrialLevels["ENTREPRISE"] == ENTREPRISE && TrialLevels["PREMIUM"] == PREMIUM
  {
  }

  /** A code spelled as dot-free keys joined with dots finds what the table holds at those keys. */
  lemma RuleAt(featureCode: string, keys: seq<string>, rule: Rule)
    requires |keys| > 0 && DotFree(keys)
    requires featureCode == Join(keys, '.') && Get(Authorizations, keys) == Some(rule)
    ensures GetMinPlan(featureCode) == Success(rule)
  {
  }

  /** A code spelled as dot-free keys the table does not hold fails the lookup. */
  lemma MissingAt(featureCode: string, keys: seq<string>)
    requires |keys| > 0 && DotFree(keys)
    requires featureCode == Join(keys, '.') && Get(Authorizations, keys) == None
    ensures GetMinPlan(featureCode).Failure?
  {
  }

  // The table's leaf values, code by code.

  lemma MinPlanBackupDelta()
    ensures GetMinPlan("BACKUP.DELTA") == Success(Plan(STARTER))
  {
    RuleAt("BACKUP.DELTA", ["BACKUP", "DELTA"], Plan(STARTER));
  }

  lemma MinPlanBackupFull()
    ensures GetMinPlan("BACKUP.FULL") == Success(Plan(STARTER))
  {
    RuleAt("BACKUP.FULL", ["BACKUP", "FULL"], Plan(STARTER));
  }

  lemma MinPlanDocker()
    ensures GetMinPlan("DOCKER") == Success(Plan(STARTER))
  {
    RuleAt("DOCKER", ["DOCKER"], Plan(STARTER));
  }

  lemma MinPlanExportXva()
    ensures GetMinPlan("EXPORT.XVA") == Success(Plan(STARTER))
  {
    RuleAt("EXPORT.XVA", ["EXPORT", "XVA"], Plan(STARTER));
  }

  lemma MinPlanBackupDeltaReplication()
    ensures GetMinPlan("BACKUP.DELTA_REPLICATION") == Success(Plan(ENTREPRISE))
  {
    RuleAt("BACKUP.DELTA_REPLICATION", ["BACKUP", "DELTA_REPLICATION"], Plan(ENTREPRISE));
  }

  lemma MinPlanBackupMetadata()
    ensures GetMinPlan("BACKUP.METADATA") == Success(Plan(ENTREPRISE))
  {
    RuleAt("BACKUP.METADATA", ["BACKUP", "METADATA"], Plan(ENTREPRISE));
  }

  lemma MinPlanBackupWithRam()
    ensures GetMinPlan("BACKUP.WITH_RAM") == Success(Plan(ENTREPRISE))
  {
    RuleAt("BACKUP.WITH_RAM", ["BACKUP", "WITH_RAM"], Plan(ENTREPRISE));
  }

  lemma MinPlanBackupS3()
    ensures GetMinPlan("BACKUP.S3") == Success(Plan(ENTREPRISE))
  {
    RuleAt("BACKUP.S3", ["BACKUP", "S3"], Plan(ENTREPRISE));
  }

  /** Known codes are rejected exactly below their minimum plan, and unknown codes always are. */
  lemma RejectedIff(featureCode: string, currentPlan: int)
    ensures CheckFeatureAuthorizationWith(featureCode, currentPlan).Fail? <==>
      GetMinPlan(featureCode).Failure? ||
      (GetMinPlan(featureCode).value.Plan? && currentPlan < GetMinPlan(featureCode).value.level)
  {
  }

  /** A plan that passes a check keeps passing it at every higher plan. */
  lemma CheckMonotone(featureCode: string, plan: int, higher: int)
    requires plan <= higher
    ensures CheckFeatureAuthorizationWith(featureCode, plan).Pass? ==> CheckFeatureAuthorizationWith(featureCode, higher).Pass?
  {
  }

  /** With the plan `#getCurrentPlan` supplies, the STARTER features pass. */
  lemma CurrentPlanAdmitsStarterFeatures()
    ensures CheckFeatureAuthorization("BACKUP.DELTA") == Pass
    ensures CheckFeatureAuthorization("BACKUP.FULL") == Pass
    ensures CheckFeatureAuthorization("DOCKER") == Pass
    ensures CheckFeatureAuthorization("EXPORT.XVA") == Pass
  {
    MinPlanBackupDelta();
    MinPlanBackupFull();
    MinPlanDocker();
    MinPlanExportXva();
  }

  /** With the plan `#getCurrentPlan` supplies, the ENTREPRISE features are rejected. */
  lemma CurrentPlanRejectsEntrepriseFeatures()
    ensures CheckFeatureAuthorization("BACKUP.DELTA_REPLICATION") == Fail(FeatureUnauthorized("BACKUP.DELTA_REPLICATION", STARTER, ENTREPRISE))
    ensures CheckFeatureAuthorization("BACKUP.METADATA") == Fail(FeatureUnauthorized("BACKUP.METADATA", STARTER, ENTREPRISE))
    ensures CheckFeatureAuthorization("BACKUP.WITH_RAM") == Fail(FeatureUnauthorized("BACKUP.WITH_RAM", STARTER, ENTREPRISE))
    ensures CheckFeatureAuthorization("BACKUP.S3") == Fail(FeatureUnauthorized("BACKUP.S3", STARTER, ENTREPRISE))
  {
    MinPlanBackupDeltaReplication();
    MinPlanBackupMetadata();
    MinPlanBackupWithRam();
    MinPlanBackupS3();
  }

  /** The codes naming a nested table, `BACKUP` and `EXPORT`, pass whatever the plan: a number is never below an object. */
  lemma NonLeafCodesPass(currentPlan: int)
    ensures CheckFeatureAuthorizationWith("BACKUP", currentPlan) == Pass
    ensures CheckFeatureAuthorizationWith("EXPORT", currentPlan) == Pass
  {
    TopLevelTablePasses("BACKUP", currentPlan);
    TopLevelTablePasses("EXPORT", currentPlan);
  }

  /** A dot-free code naming a nested table of the top level passes whatever the plan. */
  lemma TopLevelTablePasses(key: string, currentPlan: int)
    requires '.' !in key && key in Authorizations.rules && Authorizations.rules[key].Table?
    ensures CheckFeatureAuthorizationWith(key, currentPlan) == Pass
  {
    assert Join([key], '.') == key;
    RuleAt(key, [key], Authorizations.rules[key]);
  }

  /** A code the table does not hold fails the assertion, whatever the plan: XVA is an EXPORT feature, not a BACKUP one. */
  lemma UnknownCodeRejected(currentPlan: int)
    ensures CheckFeatureAuthorizationWith("BACKUP.XVA", currentPlan).Fail?
    ensures CheckFeatureAuthorizationWith("BACKUP.XVA", currentPlan).error.AssertionError?
  {
    MissingAt("BACKUP.XVA", ["BACKUP", "XVA"]);
  }
}
