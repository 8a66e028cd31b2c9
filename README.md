# FarmBot OS update button — a Dafny model

This project models the decision behind the FarmBot web app's "update FarmBot
OS" button (`webpack/devices/components/fbos_settings/os_update_button.tsx`).
The decision covers four steps:

- Pick the newest release, stable or beta.
- Compare that release with the version the bot says it runs.
- Apply the beta-channel edge cases.
- Derive what the button shows: its colour, its text (the download progress
  while an over-the-air update is running) and whether it is disabled.

Every step in the source is a pure function, so the model is a set of
datatypes, functions and lemmas:

- `wrappers.dfy`: `Optional<T>` (TypeScript's `T | undefined`) and JavaScript's
  `s || ""`.
- `semver.dfy`: the three results of `semverCompare` and the `Comparator` type.
  The comparison is not part of this model. Each operation that needs it takes
  it as the parameter `cmp`, and no property of it is assumed.
- `decimal.dfy`: decimal rendering of whole numbers (`n + "kB"` in the source)
  and its inverse parse.
- `os_update_button.dfy`: the button logic itself.

The React component `OsUpdateButton` is modelled as `RenderButton`. It takes a
`Props` value (the bot state, the truthiness of the `beta_opt_in` setting and
whether the bot is online) and returns a `ButtonView` (colour, title, disabled
flag, text).

## Model

| member | source | states |
|---|---|---|
| `Wrappers.OrEmpty` | webpack/devices/components/fbos_settings/os_update_button.tsx:59 | falling back to "" gives "" for an absent version and the version itself otherwise |
| `Decimal.NatToString` | webpack/devices/components/fbos_settings/os_update_button.tsx:40-47 | a number's text is a non-empty run of digits without a leading zero |
| `Decimal.ParseNatToString` | webpack/devices/components/fbos_settings/os_update_button.tsx:40-47 | parsing a rendered number gives the number back |
| `Decimal.NatToStringInjective` | webpack/devices/components/fbos_settings/os_update_button.tsx:40-47 | different numbers render as different texts |
| `Decimal.DigitsPrefixUnique` | webpack/devices/components/fbos_settings/os_update_button.tsx:40-47 | a number followed by a unit suffix splits back into number and suffix in only one way |
| `OsUpdateButton.GetButtonProps` | webpack/devices/components/fbos_settings/os_update_button.tsx:13-26 | green exactly for `needsUpdate`, gray exactly for `upToDate`, yellow exactly for `unknown` and `none`; the text never starts with a digit |
| `OsUpdateButton.ButtonTextIdentifiesStatus` | webpack/devices/components/fbos_settings/os_update_button.tsx:13-26 | the four states have four different texts |
| `OsUpdateButton.IsWorking` | webpack/devices/components/fbos_settings/os_update_button.tsx:29-30 | a download is in progress exactly when there is a job and it has neither completed nor failed |
| `OsUpdateButton.RoundDiv` | webpack/devices/components/fbos_settings/os_update_button.tsx:37-38 | `Math.round(n / d)` on a non-negative count: the nearest whole number, with halves rounded up |
| `OsUpdateButton.SuffixText` | webpack/devices/components/fbos_settings/os_update_button.tsx:40-47 | each unit suffix (`B`, `kB`, `MB`, `%`) starts with a non-digit |
| `OsUpdateButton.ProgressReading` | webpack/devices/components/fbos_settings/os_update_button.tsx:35-48 | for a bytes job: unit `B` exactly below 512 bytes, showing the raw count; `kB` exactly from 512 to 524287 bytes, showing the nearest kilobyte count (1 to 512); `MB` from 524288 bytes, showing the nearest megabyte count; for a percent job: the percentage with `%` |
| `OsUpdateButton.DownloadProgress` | webpack/devices/components/fbos_settings/os_update_button.tsx:29-50 | there is a progress text exactly when the job exists and its status is working, and then it is the job's reading |
| `OsUpdateButton.ReadingTextUnambiguous` | webpack/devices/components/fbos_settings/os_update_button.tsx:35-48 | two progress texts are equal only when they show the same amount in the same unit |
| `OsUpdateButton.GetLatestVersion` | webpack/devices/components/fbos_settings/os_update_button.tsx:53-63 | the result is always one of the two releases; without opt-in it is the stable release; with opt-in it is the beta when the beta compares strictly greater; it differs from the stable release only in that case |
| `OsUpdateButton.BetaCommitsAreEqual` | webpack/devices/components/fbos_settings/os_update_button.tsx:66-70 | true exactly when either commit is absent or the two are the same; so false exactly when both are present and differ |
| `OsUpdateButton.CompareWithBotVersion` | webpack/devices/components/fbos_settings/os_update_button.tsx:73-87 | `none` exactly when the installed version is absent, whatever the candidate; `unknown` exactly when the installed version is present and the candidate absent; with both present, `upToDate` exactly when the comparison is right-greater or equal, and `needsUpdate` exactly when it is left-greater |
| `OsUpdateButton.BetaOverride` | webpack/devices/components/fbos_settings/os_update_button.tsx:106-119 | the state changes exactly when it is `upToDate`, the user opted in, and the beta commit is stale or the bot is on a beta; a change is always to `needsUpdate`; the override never produces `upToDate` |
| `OsUpdateButton.UpdateStatus` | webpack/devices/components/fbos_settings/os_update_button.tsx:89-119 | the final state satisfies the case-by-case rule table (`StatusRule`) |
| `OsUpdateButton.OtaJob` | webpack/devices/components/fbos_settings/os_update_button.tsx:122 | the OTA job is present exactly when the bot reports a job table with an `FBOS_OTA` entry, and then it is that entry |
| `OsUpdateButton.RenderButton` | webpack/devices/components/fbos_settings/os_update_button.tsx:89-130 | disabled exactly when the OTA job is working or the bot is offline; colour from the final state; title is the latest release; text is the download progress while the job works, otherwise the state's text |
| `OsUpdateButton.StatusWithoutBeta` | webpack/devices/components/fbos_settings/os_update_button.tsx:101-119 | without beta opt-in the final state is the stable release compared with the installed version |
| `OsUpdateButton.OverrideOnlyPromotes` | webpack/devices/components/fbos_settings/os_update_button.tsx:104-119 | the final state equals the plain comparison except for a promotion of `upToDate` to `needsUpdate` under opt-in; `none`, `unknown` and `needsUpdate` are never altered |
| `OsUpdateButton.UpdateStatusMatchesRule` | webpack/devices/components/fbos_settings/os_update_button.tsx:89-119 | the computed final state is exactly the state a case-by-case rule table selects (both directions, for all four states) |
| `OsUpdateButton.UpToDateWithBeta` | webpack/devices/components/fbos_settings/os_update_button.tsx:106-119 | with opt-in, the state is `upToDate` if and only if the installed version is at least the latest release, the bot does not report a beta, and the installed commit is the latest beta's whenever the latest release is the beta |
| `OsUpdateButton.LabelShowsProgressIffWorking` | webpack/devices/components/fbos_settings/os_update_button.tsx:124-130 | the button text is never empty; it starts with a digit (a progress reading) exactly while the OTA job is working |

`LatestReleaseVersion`, `OldBetaCommit`, `OnBeta` and `ReadingText` name the
intermediate values of lines 101-115 and 40-47. The lemmas above state their
properties.

## Left out

- The JSX markup, the `className` string and the `onClick` handler
  (`checkControllerUpdates`). They are rendering and a network action. The
  model keeps only the values the button carries.
- The `t()` lookup. The button texts are the untranslated keys.
- The body of `semverCompare`. It is not part of this model, so it is the
  parameter `cmp` and nothing is assumed about it.
- JavaScript number semantics. Byte counts and percentages are whole,
  non-negative numbers (`nat`). `Math.round` is integer rounding with halves
  rounded up. Number-to-text conversion is plain decimal. A fractional percent
  is not modelled.
- JavaScript truthiness of non-boolean values. The `beta_opt_in` setting is
  modelled by its truthiness (`bool`). `currently_on_beta` is an optional
  boolean, and it counts only when it is `true`.
- `OsUpdateButton.ProgressReading`: the source returns `undefined` for a job
  whose unit is neither `"bytes"` nor `"percent"`. This cannot arise in the
  model, because a job's unit is a datatype constructor.
- Job status is an enum of the three values `complete`, `working` and `error`,
  not an arbitrary string compared with `"working"`.
