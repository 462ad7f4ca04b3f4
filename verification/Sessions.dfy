/** Session rows and the rules that decide whether a session may still be refreshed. */
module Sessions {
  import opened Common

  datatype AssuranceLevel = AAL1 | AAL2 | AAL3 {
    function Rank(): nat {
      match this
      case AAL1 => 1
      case AAL2 => 2
      case AAL3 => 3
    }
  }

  /** The stored column is nullable; a missing level reads as the lowest one. */
  function ParseAAL(column: Option<AssuranceLevel>): AssuranceLevel {
    match column
    case None => AAL1
    case Some(level) => level
  }

  datatype Session = Session(
    userId: nat,
    notAfter: Option<Time>,
    createdAt: Time,
    refreshedAt: Option<Time>,
    factorId: Option<nat>,
    aal: Option<AssuranceLevel>,
    tag: Option<string>)

  /** Zero durations switch a rule off, exactly as an absent one does. */
  datatype ValidityConfig = ValidityConfig(
    timebox: Option<int>,
    inactivityTimeout: Option<int>,
    allowLowAAL: Option<int>)

  /** What configuration loading enforces: a duration that is set is positive. */
  predicate ConfigAccepted(config: ValidityConfig) {
    && (config.timebox.Some? ==> config.timebox.value > 0)
    && (config.inactivityTimeout.Some? ==> config.inactivityTimeout.value > 0)
    && (config.allowLowAAL.Some? ==> config.allowLowAAL.value > 0)
  }

  datatype Validity = Valid | PastNotAfter | PastTimebox | TimedOut | LowAAL

  function LastRefreshedAt(s: Session, tokenTime: Option<Time>): (t: Time)
    ensures s.refreshedAt.Some? && s.refreshedAt.value != ZERO_TIME ==> t == s.refreshedAt.value
    ensures s.refreshedAt.None? || s.refreshedAt.value == ZERO_TIME ==>
              t >= s.createdAt && (tokenTime.Some? && tokenTime.value != ZERO_TIME ==> t >= tokenTime.value)
    ensures t == s.createdAt || Some(t) == s.refreshedAt || Some(t) == tokenTime
  {
    if s.refreshedAt.None? || s.refreshedAt.value == ZERO_TIME then
      if tokenTime.Some? && tokenTime.value != ZERO_TIME && tokenTime.value > s.createdAt
      then tokenTime.value
      else s.createdAt
    else
      s.refreshedAt.value
  }

  function CheckValidity(s: Session, config: ValidityConfig, now: Time, tokenTime: Option<Time>,
                         highest: AssuranceLevel): Validity
  {
    if s.notAfter.Some? && now > s.notAfter.value then
      PastNotAfter
    else if config.timebox.Some? && config.timebox.value != 0 && now > s.createdAt + config.timebox.value then
      PastTimebox
    else if config.inactivityTimeout.Some? && config.inactivityTimeout.value != 0
            && now > LastRefreshedAt(s, tokenTime) + config.inactivityTimeout.value then
      TimedOut
    else if config.allowLowAAL.Some? && config.allowLowAAL.value != 0 && ParseAAL(s.aal).Rank() < highest.Rank()
            && now > s.createdAt + config.allowLowAAL.value then
      LowAAL
    else
      Valid
  }

  /** The tag a session counts under: its own when it is one of the configured tags, otherwise the first. */
  function TagOf(s: Session, tags: seq<string>): string {
    if tags == [] then ""
    else if s.tag.Some? && s.tag.value != "" && s.tag.value in tags then s.tag.value
    else tags[0]
  }

  method DetermineTag(s: Session, tags: seq<string>) returns (tag: string)
    ensures tag == TagOf(s, tags)
    ensures s.tag.Some? && s.tag.value in tags && s.tag.value != "" ==> tag == s.tag.value
    ensures !(s.tag.Some? && s.tag.value in tags && s.tag.value != "") ==> tag == if tags == [] then "" else tags[0]
  {
    if |tags| == 0 { return ""; }
    if s.tag.None? { return tags[0]; }
    tag := s.tag.value;
    if tag == "" { return tags[0]; }
    for i := 0 to |tags|
      invariant tag !in tags[..i]
    {
      if tags[i] == tag { return tag; }
    }
    assert tag !in tags;
    return tags[0];
  }
}
