/**
  The names under which run directories are claimed: a claim carries the inode it was made for, its
  claimant and nonce, and enough of the original name to authenticate the initializer again.
*/
module ClaimNames {
  import opened Wrappers
  import Decimal
  import Hex
  import Sequences

  const RUN := "run-"
  const INIT := "init-"
  const RUN_INIT := RUN + INIT
  const INITIALIZE := ".initialize-v1-"
  const RECLAIM := ".reclaim-v1-"
  const DELETE := ".delete-v1-"
  const NAME_MAX := 255
  const MAX_SAFE_INTEGER := 9007199254740991

  predicate IsLabelChar(c: char) {
    'A' <= c <= 'Z' || 'a' <= c <= 'z' || '0' <= c <= '9' || c == '-'
  }

  predicate AllLabel(s: string) {
    forall i | 0 <= i < |s| :: IsLabelChar(s[i])
  }

  predicate IsLabel(s: string) {
    s != "" && AllLabel(s)
  }

  predicate IsDigits(s: string) {
    s != "" && Decimal.AllDigits(s)
  }

  /** A positive decimal without a leading zero, as process IDs are written. */
  predicate IsPidText(s: string) {
    IsDigits(s) && s[0] != '0'
  }

  predicate IsNonce(s: string) {
    |s| == 24 && Hex.IsHex(s)
  }

  // ------------------------------------------------------------------------ identities

  const LINUX := "linuxx"
  const DARWIN := "darwinx"

  datatype ProcessStart = Linux(ticks: string) | Darwin(stamp: string) {
    predicate Valid() {
      match this
      case Linux(ticks) => IsDigits(ticks)
      case Darwin(stamp) => stamp != "" && Hex.IsHex(stamp)
    }

    function Encoded(): string {
      match this
      case Linux(ticks) => LINUX + ticks
      case Darwin(stamp) => DARWIN + stamp
    }
  }

  function ParseStart(s: string): Option<ProcessStart> {
    if LINUX <= s && Linux(s[|LINUX|..]).Valid() then Some(Linux(s[|LINUX|..]))
    else if DARWIN <= s && Darwin(s[|DARWIN|..]).Valid() then Some(Darwin(s[|DARWIN|..]))
    else None
  }

  datatype Owner = Owner(pid: nat, start: ProcessStart) {
    predicate Valid() {
      0 < pid <= MAX_SAFE_INTEGER && start.Valid()
    }
  }

  /** Device, inode and birth time, all in decimal. */
  datatype InodeIdentity = InodeIdentity(dev: string, ino: string, birth: string) {
    predicate Valid() {
      IsDigits(dev) && IsDigits(ino) && IsDigits(birth)
    }
  }

  datatype ClaimPart = ClaimPart(identity: InodeIdentity, claimant: Option<Owner>, deleting: bool)

  datatype Entry = Entry(runName: string, initializing: bool, claim: Option<ClaimPart>)

  /** `Invalid` is the name that makes the parser throw. */
  datatype Parsed = NotAnEntry | Invalid | Is(entry: Entry)

  datatype NameError = NameInvalid | InitializerInvalid

  // --------------------------------------------------------------------------- segments

  function Join(head: string, tail: string): string {
    head + "-" + tail
  }

  predicate Dashless(s: string) {
    forall i | 0 <= i < |s| :: s[i] != '-'
  }

  function FirstDash(s: string): (i: nat)
    ensures i <= |s| && Dashless(s[..i]) && (i < |s| ==> s[i] == '-')
  {
    if s == "" || s[0] == '-' then 0 else 1 + FirstDash(s[1..])
  }

  datatype Cut = NoDash | Cut(head: string, tail: string)

  function CutAtDash(s: string): Cut {
    var i := FirstDash(s);
    if i == |s| then NoDash else Cut(s[..i], s[i + 1..])
  }

  lemma {:induction false} FirstDashJoined(head: string, tail: string)
    requires Dashless(head)
    ensures FirstDash(Join(head, tail)) == |head|
  {
    if head != "" {
      assert Join(head, tail)[0] == head[0];
      assert Join(head, tail)[1..] == Join(head[1..], tail);
      FirstDashJoined(head[1..], tail);
    }
  }

  lemma CutJoined(head: string, tail: string)
    requires Dashless(head)
    ensures CutAtDash(Join(head, tail)) == Cut(head, tail)
  {
    FirstDashJoined(head, tail);
    assert Join(head, tail)[..|head|] == head && Join(head, tail)[|head| + 1..] == tail;
  }

  lemma JoinedLabel(head: string, tail: string)
    requires AllLabel(head) && AllLabel(tail)
    ensures IsLabel(Join(head, tail))
  {
  }

  lemma PrefixDrops(prefix: string, text: string)
    ensures prefix <= prefix + text && (prefix + text)[|prefix|..] == text
  {
  }

  // ---------------------------------------------------------------------------- parsing

  function ParseBase(name: string): Option<Entry> {
    if INITIALIZE <= name && IsLabel(name[|INITIALIZE|..]) then Some(Entry(RUN_INIT + name[|INITIALIZE|..], true, None))
    else if RUN <= name && IsLabel(name[|RUN|..]) then Some(Entry(name, false, None))
    else None
  }

  datatype Pieces = NoMatch | Pieces(identity: InodeIdentity, pid: string, start: Option<ProcessStart>, original: Entry)

  function MatchNonce(t: string, identity: InodeIdentity, pid: string, start: Option<ProcessStart>): Pieces {
    match CutAtDash(t)
    case NoDash => NoMatch
    case Cut(nonce, original) =>
      if !IsNonce(nonce) || ParseBase(original).None? then NoMatch
      else Pieces(identity, pid, start, ParseBase(original).value)
  }

  /** Older claims have no start, and then no claimant. */
  function MatchClaimant(t: string, identity: InodeIdentity): Pieces {
    match CutAtDash(t)
    case NoDash => NoMatch
    case Cut(pid, t1) =>
      if !IsPidText(pid) then NoMatch
      else
        match CutAtDash(t1)
        case NoDash => NoMatch
        case Cut(start, t2) =>
          if ParseStart(start).Some? then MatchNonce(t2, identity, pid, ParseStart(start))
          else MatchNonce(t1, identity, pid, None)
  }

  function MatchClaim(t: string): Pieces {
    match CutAtDash(t)
    case NoDash => NoMatch
    case Cut(dev, t1) =>
      match CutAtDash(t1)
      case NoDash => NoMatch
      case Cut(ino, t2) =>
        match CutAtDash(t2)
        case NoDash => NoMatch
        case Cut(birth, t3) =>
          var identity := InodeIdentity(dev, ino, birth);
          if identity.Valid() then MatchClaimant(t3, identity) else NoMatch
  }

  function ParseClaim(t: string, deleting: bool): Parsed {
    match MatchClaim(t)
    case NoMatch => NotAnEntry
    case Pieces(identity, pid, start, original) =>
      if start.None? then Is(original.(claim := Some(ClaimPart(identity, None, deleting))))
      else if !IsPidText(pid) || Decimal.BigIntOf(pid) > MAX_SAFE_INTEGER then Invalid
      else Is(original.(claim := Some(ClaimPart(identity, Some(Owner(Decimal.BigIntOf(pid), start.value)), deleting))))
  }

  function ParseReclaimEntry(name: string): Parsed {
    if ParseBase(name).Some? then Is(ParseBase(name).value)
    else if RECLAIM <= name then ParseClaim(name[|RECLAIM|..], false)
    else if DELETE <= name then ParseClaim(name[|DELETE|..], true)
    else NotAnEntry
  }

  function OwnerOf(text: string): Option<Owner> {
    match CutAtDash(text)
    case NoDash => None
    case Cut(pid, t) =>
      match CutAtDash(t)
      case NoDash => None
      case Cut(start, rest) =>
        if IsPidText(pid) && ParseStart(start).Some? && IsLabel(rest) && Decimal.BigIntOf(pid) <= MAX_SAFE_INTEGER
        then Some(Owner(Decimal.BigIntOf(pid), ParseStart(start).value)) else None
  }

  /** The initializer a run name authenticates, `None` where the parser throws. */
  function ProvisionalOwner(runName: string): Option<Owner> {
    if RUN_INIT <= runName then OwnerOf(runName[|RUN_INIT|..]) else None
  }

  // --------------------------------------------------------------------------- building

  function OwnerText(o: Owner, tail: string): string {
    Join(Decimal.Print(o.pid), Join(o.start.Encoded(), tail))
  }

  /** What a claim keeps of the original name: the phase and the initializer. */
  function ClaimRunName(entry: Entry): Result<string, NameError> {
    if !(RUN_INIT <= entry.runName) then Ok(RUN + "claimed")
    else
      match ProvisionalOwner(entry.runName)
      case None => Err(InitializerInvalid)
      case Some(o) => Ok((if entry.initializing then INITIALIZE else RUN_INIT) + OwnerText(o, "c"))
  }

  datatype Request = Request(identity: InodeIdentity, claimant: Owner, nonce: string, deleting: bool) {
    predicate Valid() {
      identity.Valid() && claimant.Valid() && IsNonce(nonce)
    }
  }

  function ClaimText(c: Request, original: string): string {
    Join(c.identity.dev, Join(c.identity.ino, Join(c.identity.birth, OwnerText(c.claimant, Join(c.nonce, original)))))
  }

  function NameClaim(kept: Result<string, NameError>, c: Request): Result<string, NameError> {
    match kept
    case Err(e) => Err(e)
    case Ok(original) =>
      var claim := (if c.deleting then DELETE else RECLAIM) + ClaimText(c, original);
      if |claim| > NAME_MAX then Err(NameInvalid) else Ok(claim)
  }

  function BuildClaim(name: string, c: Request): Result<string, NameError> {
    match ParseReclaimEntry(name)
    case NotAnEntry => Err(NameInvalid)
    case Invalid => Err(InitializerInvalid)
    case Is(entry) => NameClaim(ClaimRunName(entry), c)
  }

  // ------------------------------------------------------------------------- round trips

  lemma PidReads(pid: nat)
    requires pid > 0
    ensures IsPidText(Decimal.Print(pid)) && Decimal.BigIntOf(Decimal.Print(pid)) == pid
    ensures Dashless(Decimal.Print(pid)) && AllLabel(Decimal.Print(pid))
  {
    Decimal.PrintReads(pid);
    Decimal.PrintReads(0);
  }

  lemma DigitsAreLabel(s: string)
    requires Hex.IsHex(s)
    ensures AllLabel(s) && Dashless(s)
  {
  }

  lemma LinuxReads(ticks: string)
    requires IsDigits(ticks)
    ensures ParseStart(LINUX + ticks) == Some(Linux(ticks)) && Dashless(LINUX + ticks) && AllLabel(LINUX + ticks)
  {
    PrefixDrops(LINUX, ticks);
    DigitsAreLabel(ticks);
  }

  lemma DarwinReads(stamp: string)
    requires stamp != "" && Hex.IsHex(stamp)
    ensures ParseStart(DARWIN + stamp) == Some(Darwin(stamp)) && Dashless(DARWIN + stamp) && AllLabel(DARWIN + stamp)
  {
    PrefixDrops(DARWIN, stamp);
    DigitsAreLabel(stamp);
    assert (DARWIN + stamp)[0] == 'd';
  }

  lemma StartReads(p: ProcessStart)
    requires p.Valid()
    ensures ParseStart(p.Encoded()) == Some(p) && Dashless(p.Encoded()) && AllLabel(p.Encoded())
  {
    match p
    case Linux(ticks) => LinuxReads(ticks);
    case Darwin(stamp) => DarwinReads(stamp);
  }

  /** The owner written into a run name is read back from it. */
  lemma OwnerReads(o: Owner, rest: string)
    requires o.Valid() && IsLabel(rest)
    ensures OwnerOf(OwnerText(o, rest)) == Some(o) && IsLabel(OwnerText(o, rest))
  {
    var pid, start := Decimal.Print(o.pid), o.start.Encoded();
    PidReads(o.pid);
    StartReads(o.start);
    CutJoined(pid, Join(start, rest));
    CutJoined(start, rest);
    JoinedLabel(start, rest);
    JoinedLabel(pid, Join(start, rest));
  }

  lemma BaseReads(text: string, initializing: bool)
    requires IsLabel(text)
    ensures ParseBase((if initializing then INITIALIZE else RUN_INIT) + text) == Some(Entry(RUN_INIT + text, initializing, None))
  {
    if initializing {
      PrefixDrops(INITIALIZE, text);
    } else {
      Sequences.AppendAssociates(RUN, INIT, text);
      PrefixDrops(RUN, INIT + text);
      assert IsLabel(INIT + text);
      assert (RUN + (INIT + text))[0] == 'r';
    }
  }

  lemma OwnerIsValid(runName: string)
    requires ProvisionalOwner(runName).Some?
    ensures ProvisionalOwner(runName).value.Valid()
  {
    var pid := CutAtDash(runName[|RUN_INIT|..]).head;
    assert Decimal.IsCanonical(pid);
    Decimal.CanonicalPrints(pid);
    assert pid == Decimal.Print(Decimal.BigIntOf(pid));
  }

  lemma NonceReads(nonce: string, original: string, identity: InodeIdentity, pid: string, start: Option<ProcessStart>)
    requires IsNonce(nonce) && ParseBase(original).Some?
    ensures MatchNonce(Join(nonce, original), identity, pid, start) == Pieces(identity, pid, start, ParseBase(original).value)
  {
    DigitsAreLabel(nonce);
    CutJoined(nonce, original);
  }

  lemma ClaimantReads(o: Owner, nonce: string, original: string, identity: InodeIdentity)
    requires o.Valid() && IsNonce(nonce) && ParseBase(original).Some?
    ensures MatchClaimant(OwnerText(o, Join(nonce, original)), identity)
         == Pieces(identity, Decimal.Print(o.pid), Some(o.start), ParseBase(original).value)
  {
    var pid, start, rest := Decimal.Print(o.pid), o.start.Encoded(), Join(nonce, original);
    PidReads(o.pid);
    StartReads(o.start);
    CutJoined(pid, Join(start, rest));
    CutJoined(start, rest);
    NonceReads(nonce, original, identity, pid, Some(o.start));
  }

  lemma PiecesRead(c: Request, original: string)
    requires c.Valid() && ParseBase(original).Some?
    ensures MatchClaim(ClaimText(c, original))
         == Pieces(c.identity, Decimal.Print(c.claimant.pid), Some(c.claimant.start), ParseBase(original).value)
  {
    var id := c.identity;
    var t3 := OwnerText(c.claimant, Join(c.nonce, original));
    DigitsAreLabel(id.dev);
    DigitsAreLabel(id.ino);
    DigitsAreLabel(id.birth);
    CutJoined(id.dev, Join(id.ino, Join(id.birth, t3)));
    CutJoined(id.ino, Join(id.birth, t3));
    CutJoined(id.birth, t3);
    ClaimantReads(c.claimant, c.nonce, original, id);
  }

  lemma ClaimPrefixes(text: string)
    ensures ParseBase(RECLAIM + text).None? && ParseBase(DELETE + text).None? && !(RECLAIM <= DELETE + text)
  {
    assert (RECLAIM + text)[0] == '.' && (RECLAIM + text)[1] == 'r';
    assert (DELETE + text)[0] == '.' && (DELETE + text)[1] == 'd';
  }

  lemma ClaimReads(c: Request, original: string)
    requires c.Valid() && ParseBase(original).Some?
    ensures ParseReclaimEntry((if c.deleting then DELETE else RECLAIM) + ClaimText(c, original))
         == Is(ParseBase(original).value.(claim := Some(ClaimPart(c.identity, Some(c.claimant), c.deleting))))
  {
    ClaimTextReads(c, original);
    PrefixReads(ClaimText(c, original));
  }

  lemma ClaimTextReads(c: Request, original: string)
    requires c.Valid() && ParseBase(original).Some?
    ensures ParseClaim(ClaimText(c, original), c.deleting)
         == Is(ParseBase(original).value.(claim := Some(ClaimPart(c.identity, Some(c.claimant), c.deleting))))
  {
    PiecesRead(c, original);
    PidReads(c.claimant.pid);
  }

  /** The two prefixes lead to the two kinds of claims. */
  lemma PrefixReads(text: string)
    ensures ParseReclaimEntry(RECLAIM + text) == ParseClaim(text, false)
    ensures ParseReclaimEntry(DELETE + text) == ParseClaim(text, true)
  {
    ClaimPrefixes(text);
    PrefixDrops(RECLAIM, text);
    PrefixDrops(DELETE, text);
  }

  predicate PhaseShows(entry: Entry) {
    entry.initializing ==> RUN_INIT <= entry.runName
  }

  lemma BasePhaseShows(name: string)
    requires ParseBase(name).Some?
    ensures PhaseShows(ParseBase(name).value)
  {
    if ParseBase(name).value.initializing {
      PrefixDrops(RUN_INIT, name[|INITIALIZE|..]);
    }
  }

  lemma ClaimPhaseShows(t: string)
    requires MatchClaim(t).Pieces?
    ensures PhaseShows(MatchClaim(t).original)
  {
    var t3 := CutAtDash(CutAtDash(CutAtDash(t).tail).tail).tail;
    var t4 := CutAtDash(t3).tail;
    var t5 := if ParseStart(CutAtDash(t4).head).Some? then CutAtDash(t4).tail else t4;
    BasePhaseShows(CutAtDash(t5).tail);
  }

  lemma ParsedClaimPhaseShows(t: string, deleting: bool)
    requires ParseClaim(t, deleting).Is?
    ensures PhaseShows(ParseClaim(t, deleting).entry)
  {
    ClaimPhaseShows(t);
    var original, entry := MatchClaim(t).original, ParseClaim(t, deleting).entry;
    assert entry.runName == original.runName && entry.initializing == original.initializing;
  }

  lemma ParsedPhaseShows(name: string)
    requires ParseReclaimEntry(name).Is?
    ensures PhaseShows(ParseReclaimEntry(name).entry)
  {
    if ParseBase(name).Some? {
      BasePhaseShows(name);
    } else if RECLAIM <= name {
      ParsedClaimPhaseShows(name[|RECLAIM|..], false);
    } else {
      ParsedClaimPhaseShows(name[|DELETE|..], true);
    }
  }

  lemma ClaimedIsRun()
    ensures ParseBase(RUN + "claimed") == Some(Entry(RUN + "claimed", false, None)) && !(RUN_INIT <= RUN + "claimed")
  {
    PrefixDrops(RUN, "claimed");
    assert (RUN + "claimed")[0] == 'r' && (RUN + "claimed")[4] == 'c';
    assert RUN_INIT[4] == 'i';
  }

  /** What a claim keeps of a name reads back as the same phase and initializer, and is kept unchanged. */
  lemma KeptNameReads(entry: Entry)
    requires ClaimRunName(entry).Ok? && PhaseShows(entry)
    ensures var kept := ParseBase(ClaimRunName(entry).value);
      && kept.Some? && kept.value.initializing == entry.initializing && kept.value.claim.None?
      && ClaimRunName(kept.value) == ClaimRunName(entry)
      && ProvisionalOwner(kept.value.runName) == ProvisionalOwner(entry.runName)
      && (RUN_INIT <= kept.value.runName <==> RUN_INIT <= entry.runName)
  {
    if RUN_INIT <= entry.runName {
      var o := ProvisionalOwner(entry.runName).value;
      OwnerIsValid(entry.runName);
      OwnerReads(o, "c");
      BaseReads(OwnerText(o, "c"), entry.initializing);
      PrefixDrops(RUN_INIT, OwnerText(o, "c"));
    } else {
      ClaimedIsRun();
    }
  }

  /**
    The name a claimant builds reads back as the inode it was claimed for, the claimant, the deleting
    flag, and the phase and initializer of the name it replaced.
  */
  lemma ClaimRecovers(name: string, c: Request)
    requires c.Valid() && BuildClaim(name, c).Ok?
    ensures ParseReclaimEntry(name).Is? && ParseReclaimEntry(BuildClaim(name, c).value).Is?
    ensures var was := ParseReclaimEntry(name).entry; var now := ParseReclaimEntry(BuildClaim(name, c).value).entry;
      && now.claim == Some(ClaimPart(c.identity, Some(c.claimant), c.deleting))
      && now.initializing == was.initializing
      && ProvisionalOwner(now.runName) == ProvisionalOwner(was.runName)
      && (RUN_INIT <= now.runName <==> RUN_INIT <= was.runName)
      && ClaimRunName(now) == ClaimRunName(was)
  {
    var was := ParseReclaimEntry(name).entry;
    ParsedPhaseShows(name);
    KeptNameReads(was);
    ClaimReads(c, ClaimRunName(was).value);
    var kept := ParseBase(ClaimRunName(was).value).value;
    assert ClaimRunName(kept.(claim := Some(ClaimPart(c.identity, Some(c.claimant), c.deleting)))) == ClaimRunName(kept);
  }

  // -------------------------------------------------------------------- repeated claims

  /** Every claim is built from the name the one before left behind. */
  function ClaimInTurn(name: string, claims: seq<Request>): Result<string, NameError>
    decreases |claims|
  {
    if claims == [] then Ok(name)
    else
      match BuildClaim(name, claims[0])
      case Err(e) => Err(e)
      case Ok(next) => ClaimInTurn(next, claims[1..])
  }

  lemma ReclaimIgnoresClaim(name: string, first: Request, second: Request)
    requires first.Valid() && BuildClaim(name, first).Ok?
    ensures BuildClaim(BuildClaim(name, first).value, second) == BuildClaim(name, second)
  {
    ClaimRecovers(name, first);
  }

  lemma ReclaimsIgnoreClaim(name: string, first: Request, others: seq<Request>)
    requires first.Valid() && BuildClaim(name, first).Ok?
    ensures forall i | 0 <= i < |others| :: BuildClaim(BuildClaim(name, first).value, others[i]) == BuildClaim(name, others[i])
  {
    forall i | 0 <= i < |others| ensures BuildClaim(BuildClaim(name, first).value, others[i]) == BuildClaim(name, others[i]) {
      ReclaimIgnoresClaim(name, first, others[i]);
    }
  }

  /**
    However often a directory is claimed, its name is the one the last claimant would have given to the
    original name: nothing is lost on the way and nothing grows.
  */
  lemma {:induction false} ClaimsInTurnAreTheLast(name: string, claims: seq<Request>)
    requires claims != [] && forall i | 0 <= i < |claims| :: claims[i].Valid() && BuildClaim(name, claims[i]).Ok?
    ensures ClaimInTurn(name, claims) == BuildClaim(name, claims[|claims| - 1])
    decreases |claims|
  {
    if |claims| > 1 {
      ReclaimsIgnoreClaim(name, claims[0], claims[1..]);
      ClaimsInTurnAreTheLast(BuildClaim(name, claims[0]).value, claims[1..]);
    }
  }
}
