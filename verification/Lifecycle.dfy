/**
 The lab's planner and its sweeper: one writes the tags, the other reads them.

 They must agree. A resource with a plan's tags belongs to the lab, is kept exactly until the
 time the plan wrote down and is deleted at every time after it; a soak host never is.
 Times are seconds, not rounded; the expiry tag holds whole seconds.
 */
module Lifecycle {
  import opened PyJson
  import opened Texts

  // ----- tags -----

  datatype TagKey =
    | Program | LifecycleTag | Destroyable | Environment | OwnerRole | CostClass | ShutdownBehavior | MaxLifeHours | CreatedBy
    | NameTag | ExpiresAt | Purpose | Soak
    | OtherTag(name: string)

  /** A tag text. `Moment` is the text the planner prints for a whole second. */
  datatype TagText = Text(s: string) | Moment(second: int)

  type Tags = map<TagKey, TagText>

  const NAME_PREFIX: string := "vantio-w3-lab-auto-"
  const PURPOSE_VALUE: string := "c8-noninteractive-teardown"
  const MAX_LIFE_MINUTES: int := 420
  const LONG_MAX_LIFE_MINUTES: int := 36 * 60
  const SOAK_MIN_MINUTES: int := 40 * 60
  const BRAIN_MAX_MINUTES: int := 120

  datatype Life = Hours7 | Hours36

  function LifeText(l: Life): string { if l == Hours7 then "7" else "36" }

  function LifeSeconds(l: Life): real { if l == Hours7 then 25200.0 else 129600.0 }

  const EXACT_KEYS: set<TagKey> :=
    {Program, LifecycleTag, Destroyable, Environment, OwnerRole, CostClass, ShutdownBehavior, CreatedBy}

  function ExactText(key: TagKey): string {
    match key
    case Program => "w3-clean-host-lab"
    case LifecycleTag => "lab"
    case Destroyable => "true"
    case Environment => "lab"
    case OwnerRole => "vantio-w3-lab-provision"
    case CostClass => "free-plan-credit"
    case ShutdownBehavior => "terminate"
    case CreatedBy => "w3-lab-auto"
    case _ => ""
  }

  function ExactTags(): Tags { map key | key in EXACT_KEYS :: Text(ExactText(key)) }

  function LifeOf(tags: Tags): Option<Life> {
    if MaxLifeHours !in tags then None
    else if tags[MaxLifeHours] == Text("7") then Some(Hours7)
    else if tags[MaxLifeHours] == Text("36") then Some(Hours36)
    else None
  }

  /** The tags of the sweeper's own lab. */
  predicate LabTagsOwned(tags: Tags) {
    && (forall key | key in EXACT_KEYS :: key in tags && tags[key] == Text(ExactText(key)))
    && LifeOf(tags).Some?
    && NameTag in tags && tags[NameTag].Text? && NAME_PREFIX <= tags[NameTag].s
  }

  // ----- the planner -----

  datatype SpecKey =
    | InstanceType | MaxLife | SoakKey | StopAfterMinutes | ExpiresInMinutes | NameKey | PurposeKey | PublicIp | Other(name: string)

  type Val = Value<SpecKey>
  type Spec = map<SpecKey, Val>

  function GetOr(spec: Spec, key: SpecKey, default: Val): Val { if key in spec then spec[key] else default }

  predicate AreDigits(s: string) { s != "" && forall i | 0 <= i < |s| :: IsDigit(s[i]) }

  /** int() of decimal text with at most one leading minus sign. */
  function SignedDecimal(s: string): Option<int> {
    var digits := if s != "" && s[0] == '-' then s[1..] else s;
    if AreDigits(digits)
    then Some(if s[0] == '-' then -Decimal(digits) else Decimal(digits))
    else None
  }

  function BoundedMinutes(v: Val, limit: int): (m: Option<int>)
    ensures m.Some? ==> 1 <= m.value <= limit
  {
    var n := if v.Int? then Some(v.n) else if v.Str? then SignedDecimal(Strip(v.s)) else None;
    if n.Some? && 1 <= n.value <= limit then n else None
  }

  function LifeSpec(v: Val): Option<Life> {
    if v == Int(7) || v == Str("7") then Some(Hours7)
    else if v == Int(36) || v == Str("36") then Some(Hours36)
    else None
  }

  datatype Shape = Micro | Small | Brain

  function ShapeOf(v: Val): Option<Shape> {
    if v == Str("t3.micro") then Some(Micro)
    else if v == Str("t3.small") then Some(Small)
    else if v == Str("m7i-flex.large") then Some(Brain)
    else None
  }

  function LowerAscii(s: string): string {
    seq(|s|, i requires 0 <= i < |s| => if IsUpper(s[i]) then (s[i] as int + 32) as char else s[i])
  }

  function ParseBool(v: Val): Option<bool> {
    match v
    case Null => Some(false)
    case Bool(b) => Some(b)
    case Str(s) =>
      if LowerAscii(Strip(s)) == "true" then Some(true) else if LowerAscii(Strip(s)) == "false" then Some(false) else None
    case _ => None
  }

  /** Published-price gross of the credit-funded shape, in dollars. */
  function BrainGross(minutes: int): real {
    (minutes as real / 60.0) * (0.0958 + 20.0 * 0.08 / 730.0)
  }

  datatype Plan = Plan(
    shape: Shape, life: Life, soak: bool, stopAfter: int, expiresAt: int, tags: Tags, publicIp: bool,
    minCount: int, maxCount: int, profile: Option<string>, elasticIp: bool, credit: Option<string>, ebsOptimized: bool,
    terminateOnShutdown: bool, disableStop: bool)

  datatype Error =
    | BadInstanceType | BadMaxLife | BadStopAfter | BadExpiresIn | BadName | BadPurpose | BadBoolean | BrainCost

  datatype Result<T> = Ok(value: T) | Refused(error: Error)

  function LifeLimit(soak: bool, shape: Shape, life: Life): int {
    if soak then SOAK_MIN_MINUTES
    else if shape == Brain then BRAIN_MAX_MINUTES
    else if life == Hours36 then LONG_MAX_LIFE_MINUTES
    else MAX_LIFE_MINUTES
  }

  function OwnTags(name: string, expiresAt: int, life: Life): Tags {
    map[NameTag := Text(name), ExpiresAt := Moment(expiresAt), MaxLifeHours := Text(LifeText(life))]
  }

  function ExtraTags(purpose: bool, soak: bool): Tags {
    (if purpose then map[Purpose := Text(PURPOSE_VALUE)] else map[]) + (if soak then map[Soak := Text("active")] else map[])
  }

  function PlanTags(name: string, expiresAt: int, life: Life, purpose: bool, soak: bool): Tags {
    ExactTags() + OwnTags(name, expiresAt, life) + ExtraTags(purpose, soak)
  }

  function MakePlan(shape: Shape, life: Life, soak: bool, stop: int, expires: int, name: string, purpose: bool, publicIp: bool, now: real): Plan {
    var expiresAt := (now + (expires * 60) as real).Floor;
    Plan(shape, life, soak, stop, expiresAt, PlanTags(name, expiresAt, life, purpose, soak), publicIp,
         1, 1, None, false, if shape == Brain then None else Some("standard"), shape == Brain, true, soak)
  }

  /** The planner, in the order of its checks. `now` carries a time zone; a naive clock is refused before all of them. */
  function PlanLaunch(spec: Spec, now: real): Result<Plan> {
    var shape, life := ShapeOf(GetOr(spec, InstanceType, Str("t3.micro"))), LifeSpec(GetOr(spec, MaxLife, Str("7")));
    if shape.None? then Refused(BadInstanceType)
    else if life.None? || (shape.value == Brain && life.value != Hours7) then Refused(BadMaxLife)
    else
      var soak := GetOr(spec, SoakKey, Null) == Bool(true);
      if soak && life.value != Hours36 then Refused(BadMaxLife)
      else
        var limit := LifeLimit(soak, shape.value, life.value);
        var stop := if soak then Some(SOAK_MIN_MINUTES) else BoundedMinutes(GetOr(spec, StopAfterMinutes, Int(limit)), limit);
        if stop.None? then Refused(BadStopAfter)
        else
          var expires := if soak then Some(SOAK_MIN_MINUTES)
                         else BoundedMinutes(GetOr(spec, ExpiresInMinutes, Int(stop.value)), limit);
          if expires.None? then Refused(BadExpiresIn)
          else PlanNamed(spec, shape.value, life.value, soak, stop.value, expires.value, now)
  }

  function PlanNamed(spec: Spec, shape: Shape, life: Life, soak: bool, stop: int, expires: int, now: real): Result<Plan> {
    var name, purpose := GetOr(spec, NameKey, Str(NAME_PREFIX + "plan")), GetOr(spec, PurposeKey, Null);
    var publicIp := ParseBool(GetOr(spec, PublicIp, Bool(false)));
    if !name.Str? || !(NAME_PREFIX <= name.s) then Refused(BadName)
    else if purpose != Null && !purpose.Str? then Refused(BadPurpose)
    else if publicIp.None? then Refused(BadBoolean)
    else if purpose != Null && purpose != Str(PURPOSE_VALUE) then Refused(BadPurpose)
    else if shape == Brain && BrainGross(stop) >= 2.0 then Refused(BrainCost)
    else Ok(MakePlan(shape, life, soak, stop, expires, name.s, purpose != Null, publicIp.value, now))
  }

  // ----- the sweeper -----

  datatype Kind = Instance | Volume | SecurityGroup | KeyPair | Unsupported

  /** A timestamp of a described resource. */
  datatype Stamp = NoStamp | Unreadable | At(t: real)

  datatype Resource = Resource(
    kind: Kind, inRegion: bool, denied: bool, goodId: bool, tags: Option<Tags>, launchTime: Stamp, createdAt: Stamp)

  datatype Action =
    | SkipBadClock | SkipUnsupportedType | SkipWrongRegion | SkipDenylist | SkipBadId | SkipNotOwned | KeepSoak
    | SkipBadPurpose | SkipLifeNotEnabled | DeleteMissingLaunchTime | DeleteMissingExpiry | DeleteLaunchAge | DeleteExpired | Keep

  predicate Deletes(a: Action) {
    a == DeleteMissingExpiry || a == DeleteLaunchAge || a == DeleteExpired || a == DeleteMissingLaunchTime
  }

  predicate SoakActive(tags: Tags) { Soak in tags && tags[Soak] == Text("active") }

  function ParseTag(v: TagText, parse: string -> Option<real>): Option<real> {
    if v.Moment? then Some(v.second as real) else if v.s == "" then None else parse(v.s)
  }

  /** What the sweeper can read: the clock (None is naive), the switch for 36-hour lives and its reader of time texts. */
  datatype Sight = Sight(now: Option<real>, longLife: bool, parse: string -> Option<real>)

  /** The part of the decision that depends on time. */
  function Aged(r: Resource, tags: Tags, life: Life, now: real, parse: string -> Option<real>): Action {
    var created := if r.launchTime != NoStamp then r.launchTime else r.createdAt;
    if r.kind == Instance && r.launchTime == NoStamp then DeleteMissingLaunchTime
    else if created == Unreadable then DeleteMissingExpiry
    else if created.At? && now - created.t >= LifeSeconds(life) then DeleteLaunchAge
    else if ExpiresAt !in tags || ParseTag(tags[ExpiresAt], parse).None? then DeleteMissingExpiry
    else if ParseTag(tags[ExpiresAt], parse).value <= now then DeleteExpired
    else Keep
  }

  function SweeperAction(r: Resource, sight: Sight): Action {
    if sight.now.None? then SkipBadClock
    else if r.kind == Unsupported then SkipUnsupportedType
    else if !r.inRegion then SkipWrongRegion
    else if r.denied then SkipDenylist
    else if !r.goodId then SkipBadId
    else if r.tags.None? || !LabTagsOwned(r.tags.value) then SkipNotOwned
    else if SoakActive(r.tags.value) then KeepSoak
    else if Purpose in r.tags.value && r.tags.value[Purpose] != Text(PURPOSE_VALUE) then SkipBadPurpose
    else if LifeOf(r.tags.value) == Some(Hours36) && !sight.longLife then SkipLifeNotEnabled
    else Aged(r, r.tags.value, LifeOf(r.tags.value).value, sight.now.value, sight.parse)
  }

  // ----- planner and sweeper agree -----

  lemma LifeTexts(l: Life)
    ensures Text(LifeText(l)) == Text("7") <==> l == Hours7
    ensures Text(LifeText(l)) == Text("36") <==> l == Hours36
  {
    assert |"7"| == 1 && |"36"| == 2;
  }

  lemma ExactReads(key: TagKey)
    ensures key in ExactTags() <==> key in EXACT_KEYS
    ensures key in EXACT_KEYS ==> ExactTags()[key] == Text(ExactText(key))
    ensures key in EXACT_KEYS ==> key != NameTag && key != ExpiresAt && key != MaxLifeHours && key != Purpose && key != Soak
  {
  }

  lemma OwnReads(name: string, expiresAt: int, life: Life)
    ensures var own := OwnTags(name, expiresAt, life);
            && own.Keys == {NameTag, ExpiresAt, MaxLifeHours}
            && own[NameTag] == Text(name) && own[ExpiresAt] == Moment(expiresAt) && own[MaxLifeHours] == Text(LifeText(life))
  {
  }

  lemma ExtraReads(purpose: bool, soak: bool)
    ensures var extra := ExtraTags(purpose, soak);
            && extra.Keys <= {Purpose, Soak} && (Soak in extra <==> soak) && (Purpose in extra <==> purpose)
            && (Purpose in extra ==> extra[Purpose] == Text(PURPOSE_VALUE)) && (Soak in extra ==> extra[Soak] == Text("active"))
  {
  }

  lemma ExactStay(name: string, expiresAt: int, life: Life, purpose: bool, soak: bool, key: TagKey)
    requires key in EXACT_KEYS
    ensures var tags := PlanTags(name, expiresAt, life, purpose, soak); key in tags && tags[key] == Text(ExactText(key))
  {
    ExactReads(key);
    OwnReads(name, expiresAt, life);
    ExtraReads(purpose, soak);
    assert key !in OwnTags(name, expiresAt, life) && key !in ExtraTags(purpose, soak);
  }

  lemma PlanTagsRead(name: string, expiresAt: int, life: Life, purpose: bool, soak: bool)
    ensures var tags := PlanTags(name, expiresAt, life, purpose, soak);
            && MaxLifeHours in tags && tags[MaxLifeHours] == Text(LifeText(life))
            && NameTag in tags && tags[NameTag] == Text(name)
            && ExpiresAt in tags && tags[ExpiresAt] == Moment(expiresAt)
            && (Purpose in tags ==> tags[Purpose] == Text(PURPOSE_VALUE))
            && (SoakActive(tags) <==> soak)
  {
    OwnReads(name, expiresAt, life);
    ExtraReads(purpose, soak);
    ExactReads(Soak);
    ExactReads(Purpose);
  }

  /** The planner's tags are the sweeper's tags. */
  lemma PlanTagsOwned(name: string, expiresAt: int, life: Life, purpose: bool, soak: bool)
    requires NAME_PREFIX <= name
    ensures var tags := PlanTags(name, expiresAt, life, purpose, soak); LabTagsOwned(tags) && LifeOf(tags) == Some(life)
  {
    forall key | key in EXACT_KEYS ensures var tags := PlanTags(name, expiresAt, life, purpose, soak); key in tags && tags[key] == Text(ExactText(key)) {
      ExactStay(name, expiresAt, life, purpose, soak, key);
    }
    PlanTagsRead(name, expiresAt, life, purpose, soak);
    LifeTexts(life);
  }

  /** The brain shape never reaches the cost ceiling within its minutes. */
  lemma BrainAffordable(minutes: int)
    requires 1 <= minutes <= BRAIN_MAX_MINUTES
    ensures BrainGross(minutes) < 2.0
  {
    assert minutes as real / 60.0 <= 2.0;
  }

  /** What the planner's readers make of a spec. */
  ghost predicate Leaves(spec: Spec, shape: Shape, life: Life, soak: bool, stop: int, expires: int, name: string, purpose: bool, publicIp: bool) {
    && ShapeOf(GetOr(spec, InstanceType, Str("t3.micro"))) == Some(shape) && LifeSpec(GetOr(spec, MaxLife, Str("7"))) == Some(life)
    && (soak <==> GetOr(spec, SoakKey, Null) == Bool(true))
    && (if soak then stop == SOAK_MIN_MINUTES && expires == SOAK_MIN_MINUTES
        else
          var limit := LifeLimit(false, shape, life);
          && BoundedMinutes(GetOr(spec, StopAfterMinutes, Int(limit)), limit) == Some(stop)
          && BoundedMinutes(GetOr(spec, ExpiresInMinutes, Int(stop)), limit) == Some(expires))
    && GetOr(spec, NameKey, Str(NAME_PREFIX + "plan")) == Str(name)
    && (purpose <==> GetOr(spec, PurposeKey, Null) != Null) && (purpose ==> GetOr(spec, PurposeKey, Null) == Str(PURPOSE_VALUE))
    && ParseBool(GetOr(spec, PublicIp, Bool(false))) == Some(publicIp)
  }

  lemma LeavesMakePlan(spec: Spec, now: real, shape: Shape, life: Life, soak: bool, stop: int, expires: int, name: string, purpose: bool, publicIp: bool)
    requires Leaves(spec, shape, life, soak, stop, expires, name, purpose, publicIp)
    requires (shape == Brain ==> life == Hours7) && (soak ==> life == Hours36) && NAME_PREFIX <= name
    ensures PlanLaunch(spec, now) == Ok(MakePlan(shape, life, soak, stop, expires, name, purpose, publicIp, now))
  {
    if shape == Brain {
      BrainAffordable(stop);
    }
  }

  /** Every accepted spec gives a plan of this shape. */
  lemma PlanShape(spec: Spec, now: real)
    returns (shape: Shape, life: Life, soak: bool, stop: int, expires: int, name: string, purpose: bool, publicIp: bool)
    requires PlanLaunch(spec, now).Ok?
    ensures PlanLaunch(spec, now).value == MakePlan(shape, life, soak, stop, expires, name, purpose, publicIp, now)
    ensures 1 <= stop && 1 <= expires && (soak ==> life == Hours36) && (shape == Brain ==> life == Hours7)
    ensures stop <= LifeLimit(soak, shape, life) && expires <= LifeLimit(soak, shape, life)
    ensures NAME_PREFIX <= name
    ensures Leaves(spec, shape, life, soak, stop, expires, name, purpose, publicIp)
  {
    shape, life := ShapeOf(GetOr(spec, InstanceType, Str("t3.micro"))).value, LifeSpec(GetOr(spec, MaxLife, Str("7"))).value;
    soak := GetOr(spec, SoakKey, Null) == Bool(true);
    var limit := LifeLimit(soak, shape, life);
    stop := if soak then SOAK_MIN_MINUTES else BoundedMinutes(GetOr(spec, StopAfterMinutes, Int(limit)), limit).value;
    expires := if soak then SOAK_MIN_MINUTES else BoundedMinutes(GetOr(spec, ExpiresInMinutes, Int(stop)), limit).value;
    name := GetOr(spec, NameKey, Str(NAME_PREFIX + "plan")).s;
    purpose := GetOr(spec, PurposeKey, Null) != Null;
    publicIp := ParseBool(GetOr(spec, PublicIp, Bool(false))).value;
  }

  /** A month of 730 hours costs 71.534 dollars: the instance at 0.0958 an hour, and 20 GB of disk at 0.08 a month. */
  lemma MonthCosts()
    ensures BrainGross(730 * 60) == 71.534
  {
  }

  /** So the cost refusal is never the planner's answer. */
  lemma CostNeverRefuses(spec: Spec, now: real)
    ensures PlanLaunch(spec, now) != Refused(BrainCost)
  {
    forall m | 1 <= m <= BRAIN_MAX_MINUTES ensures BrainGross(m) < 2.0 {
      BrainAffordable(m);
    }
  }

  // ----- what a spec asks for, in its own values -----

  /** A value asks for `n` minutes: the int, or its decimal digits with white space around them. */
  ghost predicate Asks(v: Val, n: int) {
    v == Int(n) || (v.Str? && exists digits :: Core(v.s, digits) && IsDigits(digits) && Decimal(digits) == n)
  }

  ghost predicate IsDigits(s: string) { s != "" && forall c | c in s :: c in DIGITS }

  ghost predicate Minutes(spec: Spec, key: SpecKey, default: int, limit: int, n: int) {
    1 <= n <= limit && if key in spec then Asks(spec[key], n) else n == default
  }

  ghost predicate AsksShape(spec: Spec, shape: Shape) {
    if InstanceType !in spec then shape == Micro
    else
      match shape
      case Micro => spec[InstanceType] == Str("t3.micro")
      case Small => spec[InstanceType] == Str("t3.small")
      case Brain => spec[InstanceType] == Str("m7i-flex.large")
  }

  ghost predicate AsksLife(spec: Spec, life: Life) {
    if MaxLife !in spec then life == Hours7
    else
      match life
      case Hours7 => spec[MaxLife] == Str("7") || spec[MaxLife] == Int(7)
      case Hours36 => spec[MaxLife] == Str("36") || spec[MaxLife] == Int(36)
  }

  ghost predicate AsksSoak(spec: Spec) { SoakKey in spec && spec[SoakKey] == Bool(true) }

  ghost predicate AsksName(spec: Spec, name: string) {
    "vantio-w3-lab-auto-" <= name && if NameKey in spec then spec[NameKey] == Str(name) else name == "vantio-w3-lab-auto-plan"
  }

  ghost predicate AsksPurpose(spec: Spec, purpose: bool) {
    if PurposeKey in spec && spec[PurposeKey] != Null then purpose && spec[PurposeKey] == Str("c8-noninteractive-teardown")
    else !purpose
  }

  /** The word in any mix of cases. */
  ghost predicate AnyCase(s: string, lower: string, upper: string)
    requires |lower| == |upper|
  {
    |s| == |lower| && forall i | 0 <= i < |s| :: s[i] == lower[i] || s[i] == upper[i]
  }

  ghost predicate AsksPublicIp(spec: Spec, publicIp: bool) {
    if PublicIp !in spec || spec[PublicIp] == Null then !publicIp
    else
      || spec[PublicIp] == Bool(publicIp)
      || (spec[PublicIp].Str?
          && exists word :: Core(spec[PublicIp].s, word) && SaysBool(word, publicIp))
  }

  /** 420 minutes, 2160 for the 36-hour life, 120 for the brain shape; a soak host has 2400 whatever is asked. */
  ghost function Limit(shape: Shape, life: Life): int {
    if shape == Brain then 120 else if life == Hours36 then 2160 else 420
  }

  ghost predicate AsksTimes(spec: Spec, shape: Shape, life: Life, stop: int, expires: int) {
    if AsksSoak(spec) then life == Hours36 && stop == 2400 && expires == 2400
    else
      && Minutes(spec, StopAfterMinutes, Limit(shape, life), Limit(shape, life), stop)
      && Minutes(spec, ExpiresInMinutes, stop, Limit(shape, life), expires)
  }

  /** The tags of a plan, one by one. */
  ghost function TagOf(name: string, expiresAt: int, life: Life, purpose: bool, soak: bool, key: TagKey): Option<TagText> {
    match key
    case Program => Some(Text("w3-clean-host-lab"))
    case LifecycleTag => Some(Text("lab"))
    case Destroyable => Some(Text("true"))
    case Environment => Some(Text("lab"))
    case OwnerRole => Some(Text("vantio-w3-lab-provision"))
    case CostClass => Some(Text("free-plan-credit"))
    case ShutdownBehavior => Some(Text("terminate"))
    case CreatedBy => Some(Text("w3-lab-auto"))
    case NameTag => Some(Text(name))
    case ExpiresAt => Some(Moment(expiresAt))
    case MaxLifeHours => Some(Text(if life == Hours7 then "7" else "36"))
    case Purpose => if purpose then Some(Text("c8-noninteractive-teardown")) else None
    case Soak => if soak then Some(Text("active")) else None
    case OtherTag(_) => None
  }

  ghost predicate HasTag(tags: Tags, key: TagKey, text: Option<TagText>) {
    if text.Some? then key in tags && tags[key] == text.value else key !in tags
  }

  ghost predicate TagsSay(tags: Tags, name: string, expiresAt: int, life: Life, purpose: bool, soak: bool) {
    forall key :: HasTag(tags, key, TagOf(name, expiresAt, life, purpose, soak, key))
  }

  lemma NameTagIs(tags: Tags, name: string, expiresAt: int, life: Life, purpose: bool, soak: bool)
    requires TagsSay(tags, name, expiresAt, life, purpose, soak)
    ensures NameTag in tags && tags[NameTag] == Text(name)
  {
    assert HasTag(tags, NameTag, TagOf(name, expiresAt, life, purpose, soak, NameTag));
  }

  /** The plan a spec asks for. */
  ghost predicate Asked(spec: Spec, now: real, p: Plan, expires: int) {
    && AsksShape(spec, p.shape) && AsksLife(spec, p.life) && (p.shape == Brain ==> p.life == Hours7)
    && (p.soak <==> AsksSoak(spec)) && AsksTimes(spec, p.shape, p.life, p.stopAfter, expires)
    && p.expiresAt as real <= now + 60.0 * expires as real < p.expiresAt as real + 1.0
    && AsksPublicIp(spec, p.publicIp)
    && (exists name, purpose :: AsksName(spec, name) && AsksPurpose(spec, purpose) && TagsSay(p.tags, name, p.expiresAt, p.life, purpose, p.soak))
    && p.minCount == 1 && p.maxCount == 1 && p.profile == None && !p.elasticIp && p.terminateOnShutdown
    && p.credit == (if p.shape == Brain then None else Some("standard")) && (p.ebsOptimized <==> p.shape == Brain)
    && (p.disableStop <==> p.soak)
  }

  lemma ShapeIff(spec: Spec, shape: Shape)
    ensures ShapeOf(GetOr(spec, InstanceType, Str("t3.micro"))) == Some(shape) <==> AsksShape(spec, shape)
  {
    assert "t3.micro"[3] == 'm' && "t3.small"[3] == 's' && |"m7i-flex.large"| == 14 && |"t3.micro"| == 8 && |"t3.small"| == 8;
  }

  lemma LifeIff(spec: Spec, life: Life)
    ensures LifeSpec(GetOr(spec, MaxLife, Str("7"))) == Some(life) <==> AsksLife(spec, life)
  {
    assert |"7"| == 1 && |"36"| == 2;
  }

  /** With a positive number no sign can stand before the digits. */
  lemma SignedIff(s: string, n: int)
    requires n >= 1
    ensures SignedDecimal(s) == Some(n) <==> IsDigits(s) && Decimal(s) == n
  {
    if s != "" && s[0] == '-' {
      NoSign(s);
      DecimalNatural(s[1..]);
    } else {
      AllDigits(s);
    }
  }

  lemma NoSign(s: string)
    requires s != "" && s[0] == '-'
    ensures !IsDigits(s)
  {
    assert s[0] in s;
    DigitIff('-');
  }

  lemma AllDigits(s: string)
    ensures AreDigits(s) <==> IsDigits(s)
  {
    forall i | 0 <= i < |s| ensures IsDigit(s[i]) <==> s[i] in DIGITS {
      DigitIff(s[i]);
    }
  }

  lemma {:induction false} DecimalNatural(s: string)
    ensures AreDigits(s) ==> Decimal(s) >= 0
  {
    if |s| > 1 {
      DecimalNatural(s[..|s| - 1]);
    }
  }

  lemma MinutesIff(v: Val, limit: int, n: int)
    ensures BoundedMinutes(v, limit) == Some(n) <==> 1 <= n <= limit && Asks(v, n)
  {
    if v.Str? && 1 <= n {
      SignedIff(Strip(v.s), n);
      StripIff(v.s, Strip(v.s));
      if Asks(v, n) {
        var digits :| Core(v.s, digits) && IsDigits(digits) && Decimal(digits) == n;
        StripIff(v.s, digits);
      }
    }
  }

  lemma SpecMinutesIff(spec: Spec, key: SpecKey, default: int, limit: int, n: int)
    ensures BoundedMinutes(GetOr(spec, key, Int(default)), limit) == Some(n) <==> Minutes(spec, key, default, limit, n)
  {
    MinutesIff(GetOr(spec, key, Int(default)), limit, n);
    assert Asks(Int(default), n) <==> n == default;
  }

  lemma LowerIs(s: string, lower: string, upper: string)
    requires |lower| == |upper| && forall i | 0 <= i < |lower| :: lower[i] in LOWER && upper[i] as int + 32 == lower[i] as int
    ensures LowerAscii(s) == lower <==> AnyCase(s, lower, upper)
  {
    if |s| == |lower| {
      forall i | 0 <= i < |s| ensures LowerAscii(s)[i] == lower[i] <==> s[i] == lower[i] || s[i] == upper[i] {
        LowerIff(lower[i]);
      }
    }
  }

  lemma PublicIpIff(spec: Spec, publicIp: bool)
    ensures ParseBool(GetOr(spec, PublicIp, Bool(false))) == Some(publicIp) <==> AsksPublicIp(spec, publicIp)
  {
    if PublicIp in spec && spec[PublicIp].Str? {
      var s := spec[PublicIp].s;
      WordIff(s, publicIp);
    }
  }

  ghost predicate SaysBool(word: string, b: bool) { if b then AnyCase(word, "true", "TRUE") else AnyCase(word, "false", "FALSE") }

  lemma WordIff(s: string, b: bool)
    ensures ParseBool(Str(s)) == Some(b) <==> exists word :: Core(s, word) && SaysBool(word, b)
  {
    ParseIff(s, b);
    CoreSays(s, Strip(s), b);
  }

  lemma ParseIff(s: string, b: bool)
    ensures ParseBool(Str(s)) == Some(b) <==> SaysBool(Strip(s), b)
  {
    LowerIs(Strip(s), "true", "TRUE");
    LowerIs(Strip(s), "false", "FALSE");
    assert |"true"| == 4 && |"false"| == 5;
  }

  lemma CoreSays(s: string, core: string, b: bool)
    requires core == Strip(s)
    ensures SaysBool(core, b) <==> exists word :: Core(s, word) && SaysBool(word, b)
  {
    StripIff(s, core);
    forall word | Core(s, word) ensures word == core {
      CoreUnique(s, word, core);
    }
  }

  lemma TagsIff(name: string, expiresAt: int, life: Life, purpose: bool, soak: bool, tags: Tags)
    ensures tags == PlanTags(name, expiresAt, life, purpose, soak) <==> TagsSay(tags, name, expiresAt, life, purpose, soak)
  {
    var mine := PlanTags(name, expiresAt, life, purpose, soak);
    PlanTagsSay(name, expiresAt, life, purpose, soak);
    if TagsSay(tags, name, expiresAt, life, purpose, soak) {
      forall key ensures key in tags <==> key in mine
      ensures key in tags ==> tags[key] == mine[key] {
        var text := TagOf(name, expiresAt, life, purpose, soak, key);
        assert HasTag(tags, key, text) && HasTag(mine, key, text);
      }
    }
  }

  lemma PlanTagsSay(name: string, expiresAt: int, life: Life, purpose: bool, soak: bool)
    ensures TagsSay(PlanTags(name, expiresAt, life, purpose, soak), name, expiresAt, life, purpose, soak)
  {
    forall key ensures HasTag(PlanTags(name, expiresAt, life, purpose, soak), key, TagOf(name, expiresAt, life, purpose, soak, key)) {
      OneTag(name, expiresAt, life, purpose, soak, key);
    }
  }

  lemma OneTag(name: string, expiresAt: int, life: Life, purpose: bool, soak: bool, key: TagKey)
    ensures HasTag(PlanTags(name, expiresAt, life, purpose, soak), key, TagOf(name, expiresAt, life, purpose, soak, key))
  {
    ExactReads(key);
    OwnReads(name, expiresAt, life);
    ExtraReads(purpose, soak);
    ThreeMaps(ExactTags(), OwnTags(name, expiresAt, life), ExtraTags(purpose, soak), key);
  }

  lemma ThreeMaps(a: Tags, b: Tags, c: Tags, key: TagKey)
    ensures HasTag(a + b + c, key, if key in c then Some(c[key]) else if key in b then Some(b[key]) else if key in a then Some(a[key]) else None)
  {
  }

  ghost predicate AsksRest(spec: Spec, soak: bool, name: string, purpose: bool, publicIp: bool) {
    (soak <==> AsksSoak(spec)) && AsksName(spec, name) && AsksPurpose(spec, purpose) && AsksPublicIp(spec, publicIp)
  }

  /** The readers find exactly what the spec asks for. */
  lemma LeavesIff(spec: Spec, shape: Shape, life: Life, soak: bool, stop: int, expires: int, name: string, purpose: bool, publicIp: bool)
    ensures Leaves(spec, shape, life, soak, stop, expires, name, purpose, publicIp) && (soak ==> life == Hours36) && NAME_PREFIX <= name <==>
            && AsksShape(spec, shape) && AsksLife(spec, life) && AsksTimes(spec, shape, life, stop, expires)
            && AsksRest(spec, soak, name, purpose, publicIp)
  {
    ShapeIff(spec, shape);
    LifeIff(spec, life);
    SpecMinutesIff(spec, StopAfterMinutes, Limit(shape, life), Limit(shape, life), stop);
    SpecMinutesIff(spec, ExpiresInMinutes, stop, Limit(shape, life), expires);
    PublicIpIff(spec, publicIp);
    assert LifeLimit(false, shape, life) == Limit(shape, life);
    assert NAME_PREFIX + "plan" == "vantio-w3-lab-auto-plan";
  }

  /** A made plan is the asked one. */
  lemma MadeIsAsked(spec: Spec, now: real, shape: Shape, life: Life, soak: bool, stop: int, expires: int, name: string, purpose: bool, publicIp: bool)
    requires AsksShape(spec, shape) && AsksLife(spec, life) && AsksTimes(spec, shape, life, stop, expires)
    requires AsksRest(spec, soak, name, purpose, publicIp) && (shape == Brain ==> life == Hours7)
    ensures Asked(spec, now, MakePlan(shape, life, soak, stop, expires, name, purpose, publicIp, now), expires)
  {
    var p := MakePlan(shape, life, soak, stop, expires, name, purpose, publicIp, now);
    PlanTagsSay(name, p.expiresAt, life, purpose, soak);
  }

  /** And there is only one such plan. */
  lemma AskedIsMade(spec: Spec, now: real, p: Plan, expires: int, name: string, purpose: bool)
    requires Asked(spec, now, p, expires) && TagsSay(p.tags, name, p.expiresAt, p.life, purpose, p.soak)
    ensures p == MakePlan(p.shape, p.life, p.soak, p.stopAfter, expires, name, purpose, p.publicIp, now)
  {
    TagsIff(name, p.expiresAt, p.life, purpose, p.soak, p.tags);
  }

  /** The planner gives exactly the plan that a spec asks for, and refuses a spec that asks for none. */
  lemma PlanIff(spec: Spec, now: real, p: Plan)
    ensures PlanLaunch(spec, now) == Ok(p) <==> exists expires :: Asked(spec, now, p, expires)
  {
    if PlanLaunch(spec, now) == Ok(p) {
      var shape, life, soak, stop, expires, name, purpose, publicIp := PlanShape(spec, now);
      LeavesIff(spec, shape, life, soak, stop, expires, name, purpose, publicIp);
      MadeIsAsked(spec, now, shape, life, soak, stop, expires, name, purpose, publicIp);
    }
    if expires :| Asked(spec, now, p, expires) {
      AskedGivesPlan(spec, now, p, expires);
    }
  }

  lemma AskedGivesPlan(spec: Spec, now: real, p: Plan, expires: int)
    requires Asked(spec, now, p, expires)
    ensures PlanLaunch(spec, now) == Ok(p)
  {
    var name, purpose :| AsksName(spec, name) && AsksPurpose(spec, purpose) && TagsSay(p.tags, name, p.expiresAt, p.life, purpose, p.soak);
    AskedIsMade(spec, now, p, expires, name, purpose);
    LeavesIff(spec, p.shape, p.life, p.soak, p.stopAfter, expires, name, purpose, p.publicIp);
    LeavesMakePlan(spec, now, p.shape, p.life, p.soak, p.stopAfter, expires, name, purpose, p.publicIp);
  }

  /** Exactly which specs the planner accepts. */
  lemma PlanAcceptsIff(spec: Spec, now: real)
    ensures PlanLaunch(spec, now).Ok? <==>
            && (exists shape, life, stop, expires ::
                  && AsksShape(spec, shape) && AsksLife(spec, life) && (shape == Brain ==> life == Hours7)
                  && AsksTimes(spec, shape, life, stop, expires))
            && (exists name :: AsksName(spec, name)) && (exists purpose :: AsksPurpose(spec, purpose))
            && (exists publicIp :: AsksPublicIp(spec, publicIp))
  {
    if PlanLaunch(spec, now).Ok? {
      var shape, life, soak, stop, expires, name, purpose, publicIp := PlanShape(spec, now);
      LeavesIff(spec, shape, life, soak, stop, expires, name, purpose, publicIp);
    }
    if exists shape, life, stop, expires ::
         && AsksShape(spec, shape) && AsksLife(spec, life) && (shape == Brain ==> life == Hours7)
         && AsksTimes(spec, shape, life, stop, expires)
    {
      var shape, life, stop, expires :|
        && AsksShape(spec, shape) && AsksLife(spec, life) && (shape == Brain ==> life == Hours7)
        && AsksTimes(spec, shape, life, stop, expires);
      if (exists name :: AsksName(spec, name)) && (exists purpose :: AsksPurpose(spec, purpose)) && (exists publicIp :: AsksPublicIp(spec, publicIp)) {
        var name :| AsksName(spec, name);
        var purpose :| AsksPurpose(spec, purpose);
        var publicIp :| AsksPublicIp(spec, publicIp);
        LeavesIff(spec, shape, life, AsksSoak(spec), stop, expires, name, purpose, publicIp);
        LeavesMakePlan(spec, now, shape, life, AsksSoak(spec), stop, expires, name, purpose, publicIp);
      }
    }
  }

  /** A shape and a life the planner allows, and a soak host with the long life. */
  ghost predicate Allowed(spec: Spec, shape: Shape, life: Life) {
    AsksShape(spec, shape) && AsksLife(spec, life) && (shape == Brain ==> life == Hours7) && (AsksSoak(spec) ==> life == Hours36)
  }

  /** Which error a refused spec gets: that of the first check that fails, in this order. */
  lemma RefusedIff(spec: Spec, now: real)
    ensures var error := PlanLaunch(spec, now);
            && (error == Refused(BadInstanceType) <==> !exists shape :: AsksShape(spec, shape))
            && (error == Refused(BadMaxLife) <==>
                  (exists shape :: AsksShape(spec, shape)) && !exists shape, life :: Allowed(spec, shape, life))
  {
    forall shape: Shape ensures ShapeOf(GetOr(spec, InstanceType, Str("t3.micro"))) == Some(shape) <==> AsksShape(spec, shape) {
      ShapeIff(spec, shape);
    }
    forall life: Life ensures LifeSpec(GetOr(spec, MaxLife, Str("7"))) == Some(life) <==> AsksLife(spec, life) {
      LifeIff(spec, life);
    }
    var shape, life := ShapeOf(GetOr(spec, InstanceType, Str("t3.micro"))), LifeSpec(GetOr(spec, MaxLife, Str("7")));
    if shape.Some? && life.Some? {
      assert AsksShape(spec, shape.value) && AsksLife(spec, life.value);
      assert Allowed(spec, shape.value, life.value) <==> (shape.value == Brain ==> life.value == Hours7) && (AsksSoak(spec) ==> life.value == Hours36);
    }
  }

  /** The planner from the times on. */
  lemma TimesStage(spec: Spec, now: real, shape: Shape, life: Life)
    requires Allowed(spec, shape, life)
    ensures var limit := Limit(shape, life);
            var stop := BoundedMinutes(GetOr(spec, StopAfterMinutes, Int(limit)), limit);
            PlanLaunch(spec, now) ==
              if AsksSoak(spec) then PlanNamed(spec, shape, life, true, 2400, 2400, now)
              else if stop.None? then Refused(BadStopAfter)
              else
                var expires := BoundedMinutes(GetOr(spec, ExpiresInMinutes, Int(stop.value)), limit);
                if expires.None? then Refused(BadExpiresIn)
                else PlanNamed(spec, shape, life, false, stop.value, expires.value, now)
  {
    ShapeIff(spec, shape);
    LifeIff(spec, life);
  }

  lemma MinutesRead(spec: Spec, key: SpecKey, default: int, limit: int)
    ensures var n := BoundedMinutes(GetOr(spec, key, Int(default)), limit);
            && (n.Some? <==> exists m :: Minutes(spec, key, default, limit, m))
            && forall m :: Minutes(spec, key, default, limit, m) ==> n == Some(m)
  {
    var n := BoundedMinutes(GetOr(spec, key, Int(default)), limit);
    forall m ensures n == Some(m) <==> Minutes(spec, key, default, limit, m) {
      SpecMinutesIff(spec, key, default, limit, m);
    }
    if n.Some? {
      assert Minutes(spec, key, default, limit, n.value);
    }
  }

  lemma RefusedTimesIff(spec: Spec, now: real, shape: Shape, life: Life)
    requires Allowed(spec, shape, life)
    ensures var error, limit := PlanLaunch(spec, now), Limit(shape, life);
            && (error == Refused(BadStopAfter) <==> !AsksSoak(spec) && !exists stop :: Minutes(spec, StopAfterMinutes, limit, limit, stop))
            && (error == Refused(BadExpiresIn) <==>
                  !AsksSoak(spec)
                  && exists stop :: Minutes(spec, StopAfterMinutes, limit, limit, stop)
                                    && !exists expires :: Minutes(spec, ExpiresInMinutes, stop, limit, expires))
  {
    var limit := Limit(shape, life);
    TimesStage(spec, now, shape, life);
    MinutesRead(spec, StopAfterMinutes, limit, limit);
    var stop := BoundedMinutes(GetOr(spec, StopAfterMinutes, Int(limit)), limit);
    if stop.Some? {
      MinutesRead(spec, ExpiresInMinutes, stop.value, limit);
    }
  }

  lemma RefusedRestIff(spec: Spec, now: real, shape: Shape, life: Life, stop: int, expires: int)
    requires Allowed(spec, shape, life) && AsksTimes(spec, shape, life, stop, expires)
    ensures var error := PlanLaunch(spec, now);
            var named := NameKey in spec ==> spec[NameKey].Str? && "vantio-w3-lab-auto-" <= spec[NameKey].s;
            var text := PurposeKey in spec ==> spec[PurposeKey] == Null || spec[PurposeKey].Str?;
            var clear := exists publicIp :: AsksPublicIp(spec, publicIp);
            && (error == Refused(BadName) <==> !named)
            && (error == Refused(BadBoolean) <==> named && text && !clear)
            && (error == Refused(BadPurpose) <==> named && (!text || (clear && !exists purpose :: AsksPurpose(spec, purpose))))
  {
    TimesStage(spec, now, shape, life);
    SpecMinutesIff(spec, StopAfterMinutes, Limit(shape, life), Limit(shape, life), stop);
    SpecMinutesIff(spec, ExpiresInMinutes, stop, Limit(shape, life), expires);
    NamedStage(spec, now, shape, life, AsksSoak(spec), stop, expires);
  }

  lemma NamedStage(spec: Spec, now: real, shape: Shape, life: Life, soak: bool, stop: int, expires: int)
    requires shape == Brain ==> 1 <= stop <= 120
    ensures var error := PlanNamed(spec, shape, life, soak, stop, expires, now);
            var named := NameKey in spec ==> spec[NameKey].Str? && "vantio-w3-lab-auto-" <= spec[NameKey].s;
            var text := PurposeKey in spec ==> spec[PurposeKey] == Null || spec[PurposeKey].Str?;
            var clear := exists publicIp :: AsksPublicIp(spec, publicIp);
            && (error == Refused(BadName) <==> !named)
            && (error == Refused(BadBoolean) <==> named && text && !clear)
            && (error == Refused(BadPurpose) <==> named && (!text || (clear && !exists purpose :: AsksPurpose(spec, purpose))))
  {
    NameLeaves(spec);
    BoolRead(spec);
    PurposeRead(spec);
    if shape == Brain {
      BrainAffordable(stop);
    }
  }

  lemma BoolRead(spec: Spec)
    ensures ParseBool(GetOr(spec, PublicIp, Bool(false))).Some? <==> exists publicIp :: AsksPublicIp(spec, publicIp)
  {
    PublicIpIff(spec, true);
    PublicIpIff(spec, false);
    var read := ParseBool(GetOr(spec, PublicIp, Bool(false)));
    if read.Some? {
      assert AsksPublicIp(spec, read.value);
    }
  }

  lemma PurposeRead(spec: Spec)
    ensures var purpose := GetOr(spec, PurposeKey, Null);
            (purpose == Null || purpose == Str(PURPOSE_VALUE)) <==> exists b :: AsksPurpose(spec, b)
  {
    var purpose := GetOr(spec, PurposeKey, Null);
    assert purpose == Null ==> AsksPurpose(spec, false);
    assert purpose == Str(PURPOSE_VALUE) ==> AsksPurpose(spec, true);
  }

  lemma NameLeaves(spec: Spec)
    ensures var name := GetOr(spec, NameKey, Str(NAME_PREFIX + "plan"));
            (name.Str? && NAME_PREFIX <= name.s) <==> (NameKey in spec ==> spec[NameKey].Str? && "vantio-w3-lab-auto-" <= spec[NameKey].s)
  {
  }

  lemma ExpiryBounds(now: real, expires: int, shape: Shape, life: Life)
    requires 1 <= expires <= LifeLimit(false, shape, life) && (shape == Brain ==> life == Hours7)
    ensures var e := (now + (expires * 60) as real).Floor; now + 59.0 < e as real <= now + LifeSeconds(life)
  {
  }

  /** A resource the sweeper looks at, with this plan's tags and made no earlier than the plan. */
  predicate MadeFrom(r: Resource, p: Plan, now: real) {
    && r.kind != Unsupported && r.inRegion && !r.denied && r.goodId && r.tags == Some(p.tags)
    && r.launchTime != Unreadable && r.createdAt != Unreadable
    && (r.launchTime.At? ==> r.launchTime.t >= now) && (r.createdAt.At? ==> r.createdAt.t >= now)
    && (r.kind == Instance ==> r.launchTime.At?)
  }

  lemma KeptUntilExpiry(r: Resource, p: Plan, planned: real, t: real, parse: string -> Option<real>)
    requires MadeFrom(r, p, planned) && ExpiresAt in p.tags && p.tags[ExpiresAt] == Moment(p.expiresAt)
    requires p.expiresAt as real <= planned + LifeSeconds(p.life)
    ensures Aged(r, p.tags, p.life, t, parse) == Keep <==> t < p.expiresAt as real
    ensures Aged(r, p.tags, p.life, t, parse) == Keep || Deletes(Aged(r, p.tags, p.life, t, parse))
  {
  }

  /**
   For every spec the planner accepts without soak: what is made from the plan is kept exactly
   before the second that the spec asks for and deleted at every time from then on. A 36-hour life
   needs its switch.
   */
  lemma SweptExactlyAtExpiry(spec: Spec, planned: real, p: Plan, expires: int, r: Resource, t: real, sight: Sight)
    requires PlanLaunch(spec, planned) == Ok(p) && !p.soak && AsksTimes(spec, p.shape, p.life, p.stopAfter, expires)
    requires MadeFrom(r, p, planned)
    requires sight.now == Some(t) && (p.life == Hours36 ==> sight.longLife)
    ensures var expiry := (planned + 60.0 * expires as real).Floor;
            && (SweeperAction(r, sight) == Keep <==> t < expiry as real)
            && (Deletes(SweeperAction(r, sight)) <==> expiry as real <= t)
            && p.expiresAt == expiry && planned < expiry as real <= planned + LifeSeconds(p.life)
  {
    var shape, life, soak, stop, minutes, name, purpose, publicIp := PlanShape(spec, planned);
    OneExpiry(spec, planned, p, expires);
    PlanTagsRead(name, p.expiresAt, life, purpose, soak);
    PlanTagsOwned(name, p.expiresAt, life, purpose, soak);
    ExpiryBounds(planned, minutes, shape, life);
    KeptUntilExpiry(r, p, planned, t, sight.parse);
  }

  lemma OneExpiry(spec: Spec, planned: real, p: Plan, expires: int)
    requires PlanLaunch(spec, planned) == Ok(p) && !p.soak && AsksTimes(spec, p.shape, p.life, p.stopAfter, expires)
    ensures p.expiresAt == (planned + 60.0 * expires as real).Floor
  {
    var shape, life, soak, stop, minutes, name, purpose, publicIp := PlanShape(spec, planned);
    LeavesIff(spec, shape, life, soak, stop, minutes, name, purpose, publicIp);
    SpecMinutesIff(spec, ExpiresInMinutes, stop, Limit(shape, life), expires);
    SpecMinutesIff(spec, ExpiresInMinutes, stop, Limit(shape, life), minutes);
    assert (expires * 60) as real == 60.0 * expires as real;
  }

  // ----- what the sweeper goes by -----

  /** The tags of the lab, one by one. */
  ghost predicate LabTags(tags: Tags) {
    && TagIs(tags, Program, "w3-clean-host-lab") && TagIs(tags, LifecycleTag, "lab") && TagIs(tags, Destroyable, "true")
    && TagIs(tags, Environment, "lab") && TagIs(tags, OwnerRole, "vantio-w3-lab-provision")
    && TagIs(tags, CostClass, "free-plan-credit") && TagIs(tags, ShutdownBehavior, "terminate") && TagIs(tags, CreatedBy, "w3-lab-auto")
    && (TagIs(tags, MaxLifeHours, "7") || TagIs(tags, MaxLifeHours, "36"))
    && NameTag in tags && tags[NameTag].Text? && "vantio-w3-lab-auto-" <= tags[NameTag].s
  }

  ghost predicate TagIs(tags: Tags, key: TagKey, s: string) { key in tags && tags[key] == Text(s) }

  lemma LabTagsIff(tags: Tags)
    ensures LabTagsOwned(tags) <==> LabTags(tags)
    ensures LabTags(tags) ==> (LifeOf(tags) == Some(Hours36) <==> TagIs(tags, MaxLifeHours, "36"))
    ensures LabTags(tags) ==> (LifeOf(tags) == Some(Hours7) <==> TagIs(tags, MaxLifeHours, "7"))
  {
    assert |"7"| == 1 && |"36"| == 2;
    assert LabTagsOwned(tags) ==> forall key | key in EXACT_KEYS :: TagIs(tags, key, ExactText(key));
    if LabTags(tags) {
      forall key | key in EXACT_KEYS ensures key in tags && tags[key] == Text(ExactText(key)) {
      }
    }
  }

  /** The resource is the sweeper's to decide on: a lab resource of a known kind with no soak tag and no other purpose. */
  ghost predicate Sweepable(r: Resource, sight: Sight) {
    && sight.now.Some? && r.kind != Unsupported && r.inRegion && !r.denied && r.goodId
    && r.tags.Some? && LabTags(r.tags.value) && !TagIs(r.tags.value, Soak, "active")
    && (Purpose in r.tags.value ==> TagIs(r.tags.value, Purpose, "c8-noninteractive-teardown"))
    && (TagIs(r.tags.value, MaxLifeHours, "36") ==> sight.longLife)
  }

  /** When it was made, by its launch time or else its creation time. */
  ghost function MadeAt(r: Resource): Stamp { if r.launchTime == NoStamp then r.createdAt else r.launchTime }

  ghost predicate TooOld(r: Resource, tags: Tags, now: real) {
    MadeAt(r).At? && now >= MadeAt(r).t + 3600.0 * (if TagIs(tags, MaxLifeHours, "36") then 36.0 else 7.0)
  }

  /** The time on the expiry tag, when it can be read. */
  ghost function ExpiryOf(tags: Tags, parse: string -> Option<real>): Option<real> {
    if ExpiresAt !in tags then None
    else
      match tags[ExpiresAt]
      case Moment(second) => Some(second as real)
      case Text(s) => if s == "" then None else parse(s)
  }

  /** Exactly what is deleted, what is kept, and that nothing else is touched. */
  lemma SweeperIff(r: Resource, sight: Sight)
    ensures Deletes(SweeperAction(r, sight)) <==>
            && Sweepable(r, sight)
            && var tags, now := r.tags.value, sight.now.value;
               || (r.kind == Instance && r.launchTime == NoStamp) || MadeAt(r) == Unreadable || TooOld(r, tags, now)
               || ExpiryOf(tags, sight.parse).None? || ExpiryOf(tags, sight.parse).value <= now
    ensures SweeperAction(r, sight) == Keep <==> Sweepable(r, sight) && !Deletes(SweeperAction(r, sight))
  {
    if r.tags.Some? {
      LabTagsIff(r.tags.value);
      assert |"7"| == 1 && |"36"| == 2;
    }
  }

  /** Which check stops the sweeper: the first one that fails, in this order. */
  lemma SkipIff(r: Resource, sight: Sight)
    ensures var action := SweeperAction(r, sight);
            var known := sight.now.Some? && r.kind != Unsupported;
            var named := known && r.inRegion && !r.denied && r.goodId;
            var ours := named && r.tags.Some? && LabTags(r.tags.value);
            && (action == SkipBadClock <==> sight.now.None?)
            && (action == SkipUnsupportedType <==> sight.now.Some? && !known)
            && (action == SkipWrongRegion <==> known && !r.inRegion)
            && (action == SkipDenylist <==> known && r.inRegion && r.denied)
            && (action == SkipBadId <==> known && r.inRegion && !r.denied && !r.goodId)
            && (action == SkipNotOwned <==> named && !ours)
            && (action == KeepSoak <==> ours && TagIs(r.tags.value, Soak, "active"))
            && (action == SkipBadPurpose <==>
                  ours && !TagIs(r.tags.value, Soak, "active")
                  && Purpose in r.tags.value && !TagIs(r.tags.value, Purpose, "c8-noninteractive-teardown"))
            && (action == SkipLifeNotEnabled <==>
                  ours && !TagIs(r.tags.value, Soak, "active")
                  && (Purpose in r.tags.value ==> TagIs(r.tags.value, Purpose, "c8-noninteractive-teardown"))
                  && TagIs(r.tags.value, MaxLifeHours, "36") && !sight.longLife)
  {
    if r.tags.Some? {
      LabTagsIff(r.tags.value);
    }
  }

  /** Which reason a deletion has: the first one that applies, in this order. */
  lemma ReasonIff(r: Resource, sight: Sight)
    requires Sweepable(r, sight)
    ensures var action, tags, now := SweeperAction(r, sight), r.tags.value, sight.now.value;
            var unlaunched, unread := r.kind == Instance && r.launchTime == NoStamp, MadeAt(r) == Unreadable;
            var aged, expiry := TooOld(r, tags, now), ExpiryOf(tags, sight.parse);
            && (action == DeleteMissingLaunchTime <==> unlaunched)
            && (action == DeleteLaunchAge <==> !unlaunched && aged)
            && (action == DeleteMissingExpiry <==> !unlaunched && !aged && (unread || expiry.None?))
            && (action == DeleteExpired <==> !unlaunched && !aged && !unread && expiry.Some? && expiry.value <= now)
  {
    LabTagsIff(r.tags.value);
    assert |"7"| == 1 && |"36"| == 2;
  }

  /** A soak plan's resources, like any soak-tagged resource, are never deleted. */
  lemma SoakNeverDeleted(r: Resource, sight: Sight)
    requires r.tags.Some? && SoakActive(r.tags.value)
    ensures !Deletes(SweeperAction(r, sight))
  {
  }

  lemma SoakPlanIsSoakTagged(spec: Spec, now: real)
    requires PlanLaunch(spec, now).Ok? && PlanLaunch(spec, now).value.soak
    ensures var p := PlanLaunch(spec, now).value; SoakActive(p.tags) && LabTagsOwned(p.tags) && p.life == Hours36
  {
    var p := PlanLaunch(spec, now).value;
    var shape, life, soak, stop, expires, name, purpose, publicIp := PlanShape(spec, now);
    PlanTagsRead(name, p.expiresAt, life, purpose, soak);
    PlanTagsOwned(name, p.expiresAt, life, purpose, soak);
  }

  /** Once deletable, always deletable; and what is skipped or kept for its tags is so at all times. */
  lemma DeletionMonotone(r: Resource, early: Sight, late: Sight)
    requires early.now.Some? && late.now.Some? && early.now.value <= late.now.value
    requires early.longLife == late.longLife && early.parse == late.parse
    ensures Deletes(SweeperAction(r, early)) ==> Deletes(SweeperAction(r, late))
    ensures SweeperAction(r, early) != SweeperAction(r, late) ==> Deletes(SweeperAction(r, late))
  {
  }

  /** The sweeper deletes only what carries the lab's own tags, in region, off the denylist and with no soak tag. */
  lemma DeletesOnlyOwned(r: Resource, sight: Sight)
    requires Deletes(SweeperAction(r, sight))
    ensures r.inRegion && !r.denied && r.goodId && r.tags.Some? && LabTagsOwned(r.tags.value) && !SoakActive(r.tags.value)
    ensures r.tags.value[Destroyable] == Text("true")
  {
  }
}
