/** `downloadCurrent`: the two guards and the download it starts. */
module Download {
  import opened Wrappers
  import opened Account
  import opened JsString

  const NoClipMessage: string := "No clip to download"
  const SignInMessage: string := "Sign in to download (free)."
  const FilePrefix: string := "NKAIVault_"
  const FileSuffix: string := ".webm"

  /** A notice shown to the user, or a download of `href` saved as
      `fileName`. */
  datatype DownloadOutcome = Notice(message: string) | Save(href: string, fileName: string)

  /** `NKAIVault_${Date.now()}.webm`. */
  function FileName(now: nat): string
  {
    FilePrefix + DecimalString(now) + FileSuffix
  }

  /** "No clip" is checked before "not signed in"; only with both a clip and
      a user does a download start, of exactly the published clip. */
  function DownloadCurrent(videoUrl: Option<string>, user: Option<User>, now: nat): (r: DownloadOutcome)
    ensures r.Save? <==> videoUrl.Some? && SignedIn(user)
    ensures videoUrl.None? ==> r == Notice(NoClipMessage)
    ensures videoUrl.Some? && !SignedIn(user) ==> r == Notice(SignInMessage)
    ensures r.Save? ==> r.href == videoUrl.value && r.fileName == FileName(now)
  {
    if videoUrl.None? then Notice(NoClipMessage)
    else if user.None? then Notice(SignInMessage)
    else Save(videoUrl.value, FileName(now))
  }

  /** The two refusals are distinguishable notices. */
  lemma NoticesDistinct()
    ensures NoClipMessage != SignInMessage
  {
  }

  /** The file name carries the download time: between the fixed prefix and
      the `.webm` suffix stand exactly the decimal digits of `now`. */
  lemma FileNameEncodesTime(now: nat)
    ensures var f := FileName(now);
      && |f| > |FilePrefix| + |FileSuffix|
      && f[..|FilePrefix|] == FilePrefix
      && f[|f| - |FileSuffix|..] == FileSuffix
      && ParseDecimal(f[|FilePrefix|..|f| - |FileSuffix|]) == now
  {
    var f := FileName(now);
    var d := DecimalString(now);
    assert f[|FilePrefix|..|f| - |FileSuffix|] == d;
    DecimalRoundTrip(now);
  }
}
