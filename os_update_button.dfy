/** The FarmBot OS update button: whether the installed OS needs an update,
    what the button shows, and whether it can be pressed.
    All operations are pure; `semverCompare` is the parameter `cmp`. */
module OsUpdateButton {

  import opened Wrappers
  import opened Semver
  import opened Decimal

  // ---------------------------------------------------------------------
  // Data model
  // ---------------------------------------------------------------------

  /** The four button states (`none`: the bot reports no version). */
  datatype UpdateButton = UpToDate | NeedsUpdate | Unknown | None

  datatype Color = Green | Gray | Yellow

  datatype ButtonProps = ButtonProps(color: Color, text: string)

  /** Status of a job reported by the bot. */
  datatype JobStatus = Complete | Working | Error

  /** A job's progress, counted either in bytes or in percent. */
  datatype JobProgress =
    | BytesProgress(status: JobStatus, bytes: nat)
    | PercentProgress(status: JobStatus, percent: nat)

  /** What the bot reports about its installed OS. */
  datatype InformationalSettings = InformationalSettings(
    controllerVersion: Optional<string>,
    commit: Optional<string>,
    currentlyOnBeta: Optional<bool>)

  datatype Hardware = Hardware(
    informationalSettings: InformationalSettings,
    jobs: Optional<map<string, JobProgress>>)

  /** The bot state: releases known to the app, and the hardware report. */
  datatype Bot = Bot(
    currentOSVersion: Optional<string>,
    currentBetaOSVersion: Optional<string>,
    currentBetaOSCommit: Optional<string>,
    hardware: Hardware)

  /** The component's inputs; `betaOptIn` is the truthiness of the
      `beta_opt_in` setting. */
  datatype Props = Props(bot: Bot, betaOptIn: bool, botOnline: bool)

  /** What the rendered button carries. */
  datatype ButtonView = ButtonView(
    color: Color,
    title: Optional<string>,
    disabled: bool,
    text: string)

  // ---------------------------------------------------------------------
  // Button state => colour and text
  // ---------------------------------------------------------------------

  function GetButtonProps(status: UpdateButton): (p: ButtonProps)
    ensures p.color == Green <==> status == NeedsUpdate
    ensures p.color == Gray <==> status == UpToDate
    ensures p.color == Yellow <==> status == Unknown || status == None
    ensures |p.text| > 0 && !IsDigit(p.text[0])
  {
    match status
    case NeedsUpdate => ButtonProps(Green, "UPDATE")
    case UpToDate => ButtonProps(Gray, "UP TO DATE")
    case Unknown => ButtonProps(Yellow, "Can't connect to release server")
    case None => ButtonProps(Yellow, "Can't connect to bot")
  }

  /** Each state has its own text, so the label tells the state apart. */
  lemma ButtonTextIdentifiesStatus(s: UpdateButton, t: UpdateButton)
    requires GetButtonProps(s).text == GetButtonProps(t).text
    ensures s == t
  {
  }

  // ---------------------------------------------------------------------
  // Download progress
  // ---------------------------------------------------------------------

  /** An OS update download is in progress: there is a job and it has
      neither completed nor failed. */
  predicate IsWorking(job: Optional<JobProgress>): (b: bool)
    ensures b <==> job.Defined? && job.value.status !in {Complete, Error}
  {
    job.Defined? && job.value.status == Working
  }

  /** `Math.round(n / d)` for a non-negative `n`: halves round up. */
  function RoundDiv(n: nat, d: nat): (r: nat)
    requires d > 0 && d % 2 == 0
    ensures d * r <= n + d / 2 < d * r + d
  {
    (n + d / 2) / d
  }

  datatype Suffix = B | KB | MB | Percent

  function SuffixText(u: Suffix): (s: string)
    ensures |s| > 0 && !IsDigit(s[0])
  {
    match u
    case B => "B"
    case KB => "kB"
    case MB => "MB"
    case Percent => "%"
  }

  /** A number with its unit, as the button shows it. */
  datatype Reading = Reading(amount: nat, suffix: Suffix)

  function ReadingText(r: Reading): string {
    NatToString(r.amount) + SuffixText(r.suffix)
  }

  /** The reading of a job: raw bytes below half a kilobyte, rounded
      kilobytes below half a megabyte, rounded megabytes above; or the
      percentage. */
  function ProgressReading(job: JobProgress): (r: Reading)
    ensures job.BytesProgress? ==> (r.suffix == B <==> job.bytes < 512)
    ensures job.BytesProgress? ==> (r.suffix == KB <==> 512 <= job.bytes < 524288)
    ensures job.BytesProgress? ==> (r.suffix == MB <==> 524288 <= job.bytes)
    ensures job.BytesProgress? && r.suffix == B ==> r.amount == job.bytes
    ensures job.BytesProgress? && r.suffix == KB ==>
      1 <= r.amount <= 512 && 1024 * r.amount - 512 <= job.bytes < 1024 * r.amount + 512
    ensures job.BytesProgress? && r.suffix == MB ==>
      1 <= r.amount && 1048576 * r.amount - 524288 <= job.bytes < 1048576 * r.amount + 524288
    ensures job.PercentProgress? ==> r == Reading(job.percent, Percent)
  {
    match job
    case BytesProgress(_, bytes) =>
      var kiloBytes := RoundDiv(bytes, 1024);
      var megaBytes := RoundDiv(bytes, 1048576);
      if kiloBytes < 1 then Reading(bytes, B)
      else if megaBytes < 1 then Reading(kiloBytes, KB)
      else Reading(megaBytes, MB)
    case PercentProgress(_, percent) => Reading(percent, Percent)
  }

  /** The progress text, present exactly while the job is working. */
  function DownloadProgress(job: Optional<JobProgress>): (r: Optional<string>)
    ensures r.Defined? <==> IsWorking(job)
    ensures r.Defined? ==> r.value == ReadingText(ProgressReading(job.value))
  {
    if IsWorking(job) then Defined(ReadingText(ProgressReading(job.value)))
    else Undefined
  }

  /** The progress text determines the reading it was made from. */
  lemma ReadingTextUnambiguous(r1: Reading, r2: Reading)
    requires ReadingText(r1) == ReadingText(r2)
    ensures r1 == r2
  {
    DigitsPrefixUnique(NatToString(r1.amount), SuffixText(r1.suffix),
                       NatToString(r2.amount), SuffixText(r2.suffix));
    NatToStringInjective(r1.amount, r2.amount);
    var s1, s2 := SuffixText(r1.suffix), SuffixText(r2.suffix);
    assert |s1| == |s2| && s1[0] == s2[0];
  }

  // ---------------------------------------------------------------------
  // Update status
  // ---------------------------------------------------------------------

  /** The newest release: the stable one, or the beta when the user opted
      in and the beta compares strictly greater. */
  function GetLatestVersion(currentOSVersion: Optional<string>,
                            currentBetaOSVersion: Optional<string>,
                            betaOptIn: bool, cmp: Comparator): (r: Optional<string>)
    ensures r == currentOSVersion || r == currentBetaOSVersion
    ensures !betaOptIn ==> r == currentOSVersion
    ensures betaOptIn && cmp(OrEmpty(currentOSVersion), OrEmpty(currentBetaOSVersion)) == RightIsGreater
      ==> r == currentBetaOSVersion
    ensures r != currentOSVersion ==>
      betaOptIn && cmp(OrEmpty(currentOSVersion), OrEmpty(currentBetaOSVersion)) == RightIsGreater
  {
    if !betaOptIn then currentOSVersion
    else match cmp(OrEmpty(currentOSVersion), OrEmpty(currentBetaOSVersion))
      case RightIsGreater => currentBetaOSVersion
      case _ => currentOSVersion
  }

  /** False exactly when both commits are known and differ. */
  function BetaCommitsAreEqual(fbosCommit: Optional<string>,
                               currentBetaOSCommit: Optional<string>): (b: bool)
    ensures b <==> fbosCommit.Undefined? || currentBetaOSCommit.Undefined?
                   || fbosCommit == currentBetaOSCommit
  {
    !(fbosCommit.Defined? && currentBetaOSCommit.Defined?
      && fbosCommit.value != currentBetaOSCommit.value)
  }

  /** Compare a release with the installed version. */
  function CompareWithBotVersion(candidate: Optional<string>,
                                 controllerVersion: Optional<string>,
                                 cmp: Comparator): (s: UpdateButton)
    ensures s == None <==> controllerVersion.Undefined?
    ensures s == Unknown <==> controllerVersion.Defined? && candidate.Undefined?
    ensures controllerVersion.Defined? && candidate.Defined? ==>
      (s == UpToDate <==> cmp(candidate.value, controllerVersion.value) in {RightIsGreater, Equal})
    ensures controllerVersion.Defined? && candidate.Defined? ==>
      (s == NeedsUpdate <==> cmp(candidate.value, controllerVersion.value) == LeftIsGreater)
  {
    if controllerVersion.Undefined? then None
    else if candidate.Undefined? then Unknown
    else match cmp(candidate.value, controllerVersion.value)
      case RightIsGreater => UpToDate
      case Equal => UpToDate
      case LeftIsGreater => NeedsUpdate
  }

  /** The beta edge cases: a truncated `controller_version` can hide a
      `-beta` suffix, so an apparently current bot on the beta channel still
      needs an update when its beta commit is stale or it says it runs a
      beta. */
  function BetaOverride(status: UpdateButton, betaOptIn: bool,
                        oldBetaCommit: bool, oldBeta: bool): (s: UpdateButton)
    ensures s != status <==> status == UpToDate && betaOptIn && (oldBetaCommit || oldBeta)
    ensures s != status ==> s == NeedsUpdate
    ensures s == UpToDate ==> status == UpToDate
  {
    var uncertainty := status == UpToDate && betaOptIn;
    if uncertainty && (oldBetaCommit || oldBeta) then NeedsUpdate else status
  }

  function LatestReleaseVersion(props: Props, cmp: Comparator): Optional<string> {
    GetLatestVersion(props.bot.currentOSVersion, props.bot.currentBetaOSVersion,
                     props.betaOptIn, cmp)
  }

  /** The installed beta commit differs from the latest beta's, and the latest
      release is the beta. */
  predicate OldBetaCommit(props: Props, cmp: Comparator) {
    && LatestReleaseVersion(props, cmp) == props.bot.currentBetaOSVersion
    && !BetaCommitsAreEqual(props.bot.hardware.informationalSettings.commit,
                            props.bot.currentBetaOSCommit)
  }

  /** `currently_on_beta`, read for its truthiness. */
  predicate OnBeta(props: Props) {
    props.bot.hardware.informationalSettings.currentlyOnBeta == Defined(true)
  }

  /** The final button state: the one the rule table selects. */
  function UpdateStatus(props: Props, cmp: Comparator): (s: UpdateButton)
    ensures StatusRule(props, cmp, s)
  {
    var latest := LatestReleaseVersion(props, cmp);
    var status := CompareWithBotVersion(
      latest, props.bot.hardware.informationalSettings.controllerVersion, cmp);
    BetaOverride(status, props.betaOptIn, OldBetaCommit(props, cmp), OnBeta(props))
  }

  /** The FBOS_OTA job, if the bot reports one. */
  function OtaJob(bot: Bot): (job: Optional<JobProgress>)
    ensures job.Defined? <==> bot.hardware.jobs.Defined? && "FBOS_OTA" in bot.hardware.jobs.value
    ensures job.Defined? ==> job.value == bot.hardware.jobs.value["FBOS_OTA"]
  {
    var jobs := match bot.hardware.jobs
      case Undefined => map[]
      case Defined(m) => m;
    if "FBOS_OTA" in jobs then Defined(jobs["FBOS_OTA"]) else Undefined
  }

  /** The rendered button, without markup. */
  function RenderButton(props: Props, cmp: Comparator): (v: ButtonView)
    ensures v.disabled <==> IsWorking(OtaJob(props.bot)) || !props.botOnline
    ensures v.color == GetButtonProps(UpdateStatus(props, cmp)).color
    ensures v.title == LatestReleaseVersion(props, cmp)
    ensures IsWorking(OtaJob(props.bot)) ==>
      v.text == ReadingText(ProgressReading(OtaJob(props.bot).value))
    ensures !IsWorking(OtaJob(props.bot)) ==>
      v.text == GetButtonProps(UpdateStatus(props, cmp)).text
  {
    var status := UpdateStatus(props, cmp);
    var job := OtaJob(props.bot);
    var progress := DownloadProgress(job);
    ButtonView(
      GetButtonProps(status).color,
      LatestReleaseVersion(props, cmp),
      IsWorking(job) || !props.botOnline,
      match progress
      case Defined(text) => text
      case Undefined => GetButtonProps(status).text)
  }

  // ---------------------------------------------------------------------
  // Properties of the whole decision
  // ---------------------------------------------------------------------

  /** Without beta opt-in the state is the stable release compared with the
      installed version. */
  lemma StatusWithoutBeta(props: Props, cmp: Comparator)
    requires !props.betaOptIn
    ensures UpdateStatus(props, cmp) == CompareWithBotVersion(
      props.bot.currentOSVersion,
      props.bot.hardware.informationalSettings.controllerVersion, cmp)
  {
  }

  /** The beta override only ever promotes `upToDate` to `needsUpdate`, and
      only with beta opt-in. */
  lemma OverrideOnlyPromotes(props: Props, cmp: Comparator)
    ensures var latest := LatestReleaseVersion(props, cmp);
            var base := CompareWithBotVersion(
              latest, props.bot.hardware.informationalSettings.controllerVersion, cmp);
            var s := UpdateStatus(props, cmp);
            && (base != UpToDate ==> s == base)
            && (s == UpToDate ==> base == UpToDate)
            && (s != base ==> props.betaOptIn && base == UpToDate && s == NeedsUpdate)
  {
  }

  /** A reference statement of the decision, case by case, on the raw
      inputs. */
  predicate StatusRule(props: Props, cmp: Comparator, s: UpdateButton) {
    var cv := props.bot.hardware.informationalSettings.controllerVersion;
    var latest := LatestReleaseVersion(props, cmp);
    var promote := props.betaOptIn && (OldBetaCommit(props, cmp) || OnBeta(props));
    match s
    case None => cv.Undefined?
    case Unknown => cv.Defined? && latest.Undefined?
    case NeedsUpdate =>
      && cv.Defined? && latest.Defined?
      && (cmp(latest.value, cv.value) == LeftIsGreater || promote)
    case UpToDate =>
      && cv.Defined? && latest.Defined?
      && cmp(latest.value, cv.value) != LeftIsGreater && !promote
  }

  /** The computed state is the one state the rule table selects. */
  lemma UpdateStatusMatchesRule(props: Props, cmp: Comparator, s: UpdateButton)
    ensures UpdateStatus(props, cmp) == s <==> StatusRule(props, cmp, s)
  {
  }

  /** With beta opt-in, a bot is shown as up to date exactly when it runs at
      least the latest release, does not report being on a beta, and has the
      latest beta commit whenever the latest release is the beta. */
  lemma UpToDateWithBeta(props: Props, cmp: Comparator)
    requires props.betaOptIn
    ensures var cv := props.bot.hardware.informationalSettings.controllerVersion;
            var latest := LatestReleaseVersion(props, cmp);
            UpdateStatus(props, cmp) == UpToDate <==>
              && cv.Defined? && latest.Defined?
              && cmp(latest.value, cv.value) in {RightIsGreater, Equal}
              && !OnBeta(props)
              && (latest == props.bot.currentBetaOSVersion ==>
                    BetaCommitsAreEqual(props.bot.hardware.informationalSettings.commit,
                                        props.bot.currentBetaOSCommit))
  {
  }

  /** The label shows download progress (it starts with a digit) exactly while
      the OTA job is working, and otherwise the state's text. */
  lemma LabelShowsProgressIffWorking(props: Props, cmp: Comparator)
    ensures var v := RenderButton(props, cmp);
            |v.text| > 0 && (IsDigit(v.text[0]) <==> IsWorking(OtaJob(props.bot)))
  {
  }
}
