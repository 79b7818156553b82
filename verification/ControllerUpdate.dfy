/** What the controller says about updates of itself. */
module ControllerUpdate {
  import opened Text
  import opened Releases

  // ---- Image references ----

  function LastIndex(s: string, c: char): (i: Option<nat>)
    ensures i.Some? ==> i.value < |s| && s[i.value] == c && c !in s[i.value + 1..]
    ensures i.None? ==> c !in s
  {
    if s == "" then None
    else if s[|s| - 1] == c then Some(|s| - 1)
    else
      var rest := LastIndex(s[..|s| - 1], c);
      assert s == s[..|s| - 1] + [s[|s| - 1]];
      assert rest.Some? ==> s[rest.value + 1..] == s[..|s| - 1][rest.value + 1..] + [s[|s| - 1]];
      rest
  }

  datatype ImageRef = ImageRef(owner: string, repo: string, tag: string)

  /** The path of a reference without its digest, cut at the last colon. */
  function PathAndTag(value: string): (string, string) {
    var named := value[..FirstIndex(value, '@')];
    var colon := LastIndex(named, ':');
    if colon.None? then (named, "") else (named[..colon.value], named[colon.value + 1..])
  }

  function ParsedImage(value: string): Option<ImageRef> {
    var (path, tag) := PathAndTag(TrimSpace(value));
    var parts := Split(path, '/');
    if |parts| != 3 || !EqualFold(parts[0], "ghcr.io") then None
    else Some(ImageRef(TrimSpace(parts[1]), TrimSpace(parts[2]), TrimSpace(tag)))
  }

  function ImageRefForTag(owner: string, repo: string, tag: string): string {
    "ghcr.io/" + owner + "/" + repo + ":" + TrimSpace(tag)
  }

  predicate IsRefreshableChannelTag(tag: string) {
    TrimSpace(ToLower(tag)) in ["latest", "main"]
  }

  // ---- The status ----

  datatype Controller = NoService | Unreachable | Running(image: string)

  datatype Release = Release(tagName: string, url: string)

  datatype Button = NoButton | PullChannel | UpdateAndRestart

  datatype Message =
    | NoMessage | UnavailableMode | UnavailableNow | NeedsRegistryImage | LookupFailed | LookupFailedButPullable
    | NewerReleased | AlreadyLatest | AheadOfLatest | MovingChannel | NotPinned

  datatype UpdateData = UpdateData(
    currentVersion: string,
    checked: bool,
    currentImage: string,
    latestRelease: string,
    latestReleaseURL: string,
    updateAvailable: bool,
    canTrigger: bool,
    trackingLatest: bool,
    currentChannel: string,
    currentChannelIsDev: bool,
    targetImage: string,
    button: Button,
    message: Message)

  /** The version the controller runs: its own, or else the one of its image's tag. */
  function CurrentRelease(version: string, tag: string): string {
    if IsRelease(TrimSpace(version)) then Normalized(TrimSpace(version)) else Normalized(tag)
  }

  method ControllerUpdateStatus(version: string, controller: Controller, latest: Option<Release>) returns (data: UpdateData)
    ensures data.currentVersion == TrimSpace(version)
    ensures data.checked <==> controller.Running?
    ensures data.updateAvailable <==> Newer(version, controller, latest)
    ensures data.trackingLatest <==> Refreshes(version, controller, latest)
    ensures data.canTrigger <==> data.updateAvailable || data.trackingLatest
    ensures data.canTrigger ==>
              && controller.Running? && ParsedImage(TrimSpace(controller.image)).Some?
              && var image := ParsedImage(TrimSpace(controller.image)).value;
                 data.targetImage == ImageRefForTag(image.owner, image.repo, if data.updateAvailable then latest.value.tagName else image.tag)
    ensures !data.canTrigger ==> data.targetImage == "" && data.button == NoButton
    ensures data.message.AlreadyLatest? <==> UpToDate(version, controller, latest)
    ensures data.message.NewerReleased? <==> data.updateAvailable
    ensures data.button == if data.updateAvailable then UpdateAndRestart else if data.trackingLatest then PullChannel else NoButton
    ensures data.currentImage == if controller.Running? then TrimSpace(controller.image) else ""
    ensures data.currentChannel == if data.trackingLatest then ParsedImage(TrimSpace(controller.image)).value.tag else ""
    ensures var named := controller.Running? && ParsedImage(TrimSpace(controller.image)).Some?;
            && (data.message.UnavailableMode? <==> controller.NoService?)
            && (data.message.UnavailableNow? <==> controller.Unreachable?)
            && (data.message.NeedsRegistryImage? <==> controller.Running? && !named)
            && (data.message.LookupFailed? <==> named && latest.None? && !data.trackingLatest)
            && (data.message.LookupFailedButPullable? <==> latest.None? && data.trackingLatest)
            && (data.message.AheadOfLatest? <==> Standing(version, controller, latest) == Some(1))
            && (data.message.MovingChannel? <==> latest.Some? && data.trackingLatest)
            && (data.message.NotPinned? <==> named && latest.Some? && Standing(version, controller, latest).None? && !data.trackingLatest)
            && data.currentChannelIsDev == data.message.NotPinned?
            && data.latestRelease == (if named && latest.Some? then latest.value.tagName else "")
            && data.latestReleaseURL == (if named && latest.Some? then latest.value.url else "")
  {
    hide ParsedImage, TrimSpace, Compared, IsRefreshableChannelTag, ImageRefForTag, PartsOf;
    data := UpdateData(TrimSpace(version), false, "", "", "", false, false, false, "", false, "", NoButton, NoMessage);
    if controller.NoService? {
      return data.(message := UnavailableMode);
    }
    if controller.Unreachable? {
      return data.(message := UnavailableNow);
    }
    data := data.(checked := true, currentImage := TrimSpace(controller.image));
    var image := ParsedImage(data.currentImage);
    if image.None? {
      return data.(message := NeedsRegistryImage);
    }
    var ImageRef(owner, repo, currentTag) := image.value;
    if latest.None? {
      data := data.(message := LookupFailed);
      if IsRefreshableChannelTag(currentTag) {
        data := data.(canTrigger := true, trackingLatest := true, currentChannel := currentTag,
                      targetImage := ImageRefForTag(owner, repo, currentTag), button := PullChannel, message := LookupFailedButPullable);
      }
      return;
    }
    data := data.(latestRelease := latest.value.tagName, latestReleaseURL := latest.value.url);
    var currentRelease := NormalizeReleaseVersion(data.currentVersion);
    NormalIsNotEmpty(data.currentVersion);
    NormalIsNotEmpty(currentTag);
    if currentRelease == "" {
      currentRelease := NormalizeReleaseVersion(currentTag);
    }
    CurrentIsRelease(version, currentTag);
    NormalIsNotEmpty(latest.value.tagName);
    var latestRelease := NormalizeReleaseVersion(latest.value.tagName);
    if currentRelease != "" && latestRelease != "" {
      var order := CompareReleaseVersions(currentRelease, latest.value.tagName);
      ComparisonIsAPreorder(currentRelease, latest.value.tagName, currentRelease);
      if order == -1 {
        data := data.(updateAvailable := true, canTrigger := true,
                      targetImage := ImageRefForTag(owner, repo, latest.value.tagName), button := UpdateAndRestart, message := NewerReleased);
      } else if order == 0 {
        data := data.(message := AlreadyLatest);
      } else {
        data := data.(message := AheadOfLatest);
      }
    } else if IsRefreshableChannelTag(currentTag) {
      data := data.(canTrigger := true, trackingLatest := true, currentChannel := currentTag,
                    targetImage := ImageRefForTag(owner, repo, currentTag), button := PullChannel, message := MovingChannel);
    } else {
      data := data.(currentChannelIsDev := true, message := NotPinned);
    }
  }

  lemma CurrentIsRelease(version: string, tag: string)
    ensures CurrentRelease(version, tag) == "" <==> !IsRelease(TrimSpace(version)) && !IsRelease(tag)
    ensures IsRelease(CurrentRelease(version, tag)) <==> IsRelease(TrimSpace(version)) || IsRelease(tag)
  {
    hide PartsOf;
    NormalizedIsNormal(TrimSpace(version));
    NormalizedIsNormal(tag);
    NormalIsNotEmpty(TrimSpace(version));
    NormalIsNotEmpty(tag);
  }

  /** How the running version compares to the latest release, where both are known release versions. */
  function Standing(version: string, controller: Controller, latest: Option<Release>): Option<int> {
    if !controller.Running? || latest.None? then None else
    var image := ParsedImage(TrimSpace(controller.image));
    if image.None? then None else
    var current := CurrentRelease(version, image.value.tag);
    if current == "" || !IsRelease(latest.value.tagName) then None
    else Some(Compared(current, latest.value.tagName))
  }

  /** The latest release is strictly greater than the running version. */
  predicate Newer(version: string, controller: Controller, latest: Option<Release>) {
    Standing(version, controller, latest) == Some(-1)
  }

  predicate UpToDate(version: string, controller: Controller, latest: Option<Release>) {
    Standing(version, controller, latest) == Some(0)
  }

  /** The image follows a moving channel, and there are no two releases to compare. */
  predicate Refreshes(version: string, controller: Controller, latest: Option<Release>) {
    && controller.Running?
    && Standing(version, controller, latest).None?
    && var image := ParsedImage(TrimSpace(controller.image));
       image.Some? && IsRefreshableChannelTag(image.value.tag)
  }

  // ---- What the offered image is, and what comes after it ----

  lemma PathParts(path: string, k: nat, c: char)
    requires k < |Split(path, '/')| && c in TrimSpace(Split(path, '/')[k])
    ensures c in path && c != '/'
  {
    TrimIsClean(Split(path, '/')[k], IsSpace);
    SplitPartsWithin(path, IsChar('/'), k, c);
    SplitPartsFree(path, IsChar('/'));
    assert FreeOf(Split(path, '/')[k], IsChar('/'));
  }

  /** Owner and repository of a parsed image hold no separator. */
  lemma ParsedNames(value: string)
    requires ParsedImage(value).Some?
    ensures var image := ParsedImage(value).value;
            && '@' !in image.owner && '/' !in image.owner && '@' !in image.repo && '/' !in image.repo
            && Trimmed(image.tag)
  {
    var trimmed := TrimSpace(value);
    var (path, tag) := PathAndTag(trimmed);
    assert '@' !in path;
    TrimIsClean(tag, IsSpace);
    var image := ParsedImage(value).value;
    if '@' in image.owner { PathParts(path, 1, '@'); }
    if '/' in image.owner { PathParts(path, 1, '/'); }
    if '@' in image.repo { PathParts(path, 2, '@'); }
    if '/' in image.repo { PathParts(path, 2, '/'); }
  }

  lemma {:induction false} LastIndexBefore(a: string, c: char, rest: string)
    requires c !in rest
    ensures LastIndex(a + [c] + rest, c) == Some(|a|)
  {
    var s := a + [c] + rest;
    if rest == "" {
      assert s == a + [c];
    } else {
      var n := |rest| - 1;
      assert rest[n] in rest;
      assert s[..|s| - 1] == a + [c] + rest[..n];
      LastIndexBefore(a, c, rest[..n]);
    }
  }

  lemma PathAndTagOf(path: string, tag: string)
    requires '@' !in path && '@' !in tag && ':' !in tag
    ensures PathAndTag(path + ":" + tag) == (path, tag)
  {
    var value := path + ":" + tag;
    assert FirstIndex(value, '@') == |value|;
    assert value[..|value|] == value;
    LastIndexBefore(path, ':', tag);
    assert value[..|path|] == path && value[|path| + 1..] == tag;
  }

  lemma RegistryPath(owner: string, repo: string)
    requires '/' !in owner && '/' !in repo
    ensures Split("ghcr.io/" + owner + "/" + repo, '/') == ["ghcr.io", owner, repo]
  {
    assert "ghcr.io/" + owner + "/" + repo == "ghcr.io" + ['/'] + (owner + ['/'] + repo);
    SplitFirst("ghcr.io", '/', owner + ['/'] + repo, IsChar('/'));
    SplitFirst(owner, '/', repo, IsChar('/'));
    SplitFree(repo, IsChar('/'));
  }

  lemma NamesAreTrimmed(value: string)
    requires ParsedImage(value).Some?
    ensures var image := ParsedImage(value).value; TrimSpace(image.owner) == image.owner && TrimSpace(image.repo) == image.repo
  {
    var (path, tag) := PathAndTag(TrimSpace(value));
    var parts := Split(path, '/');
    TrimIsClean(parts[1], IsSpace);
    TrimIsClean(parts[2], IsSpace);
    TrimCleanIsIdentity(TrimSpace(parts[1]), IsSpace);
    TrimCleanIsIdentity(TrimSpace(parts[2]), IsSpace);
  }

  /** An offered image reads back as the same repository with the offered tag, when the tag holds no
      separator of its own. */
  lemma TargetReadsBack(value: string, tag: string)
    requires ParsedImage(value).Some? && '@' !in tag && ':' !in tag
    ensures var image := ParsedImage(value).value;
            ParsedImage(ImageRefForTag(image.owner, image.repo, tag)) == Some(image.(tag := TrimSpace(tag)))
  {
    var image := ParsedImage(value).value;
    ParsedNames(value);
    TrimIsClean(tag, IsSpace);
    var path := "ghcr.io/" + image.owner + "/" + image.repo;
    var target := ImageRefForTag(image.owner, image.repo, tag);
    assert target == path + ":" + TrimSpace(tag);
    TrimCleanIsIdentity(target, IsSpace);
    PathAndTagOf(path, TrimSpace(tag));
    RegistryPath(image.owner, image.repo);
    NamesAreTrimmed(value);
    TrimCleanIsIdentity(TrimSpace(tag), IsSpace);
  }

  lemma SamePartsCompareEqual(a: string, b: string)
    requires PartsOf(a) == PartsOf(b)
    ensures Compared(a, b) == 0
  {
    hide PartsOf;
    ComparisonIsAPreorder(a, a, a);
  }

  /** A version means the same without the space around it. */
  lemma ReleaseOfTrimmed(value: string)
    ensures PartsOf(TrimSpace(value)) == PartsOf(value)
  {
    TrimIsClean(value, IsSpace);
    TrimCleanIsIdentity(TrimSpace(value), IsSpace);
  }

  lemma TargetIsTrimmed(owner: string, repo: string, tag: string)
    ensures TrimSpace(ImageRefForTag(owner, repo, tag)) == ImageRefForTag(owner, repo, tag)
  {
    TrimIsClean(tag, IsSpace);
    TrimCleanIsIdentity(ImageRefForTag(owner, repo, tag), IsSpace);
  }

  /** Once the offered image runs, and says the version of its tag or none at all, the same latest
      release is no longer newer: the controller is up to date. */
  lemma UpdateSettles(version: string, controller: Controller, latest: Option<Release>, next: string)
    requires Newer(version, controller, latest)
    requires '@' !in latest.value.tagName && ':' !in latest.value.tagName
    requires !IsRelease(TrimSpace(next)) || Compared(TrimSpace(next), latest.value.tagName) == 0
    ensures var image := ParsedImage(TrimSpace(controller.image)).value;
            var target := ImageRefForTag(image.owner, image.repo, latest.value.tagName);
            UpToDate(next, Running(target), latest)
  {
    hide ParsedImage, PartsOf, ImageRefForTag, CompareFrom;
    var tag := latest.value.tagName;
    var value := TrimSpace(controller.image);
    var image := ParsedImage(value).value;
    var target := ImageRefForTag(image.owner, image.repo, tag);
    TargetReadsBack(value, tag);
    TargetIsTrimmed(image.owner, image.repo, tag);
    ReleaseOfTrimmed(tag);
    CurrentIsRelease(next, TrimSpace(tag));
    NormalizedIsNormal(TrimSpace(next));
    NormalizedIsNormal(TrimSpace(tag));
    ComparisonIsAPreorder(TrimSpace(tag), tag, tag);
    SamePartsCompareEqual(TrimSpace(tag), tag);
  }

  // ---- When an update is offered, in numbers ----

  /** A name of a repository as it stands in a reference. */
  predicate PlainName(name: string) {
    name != "" && Trimmed(name) && '/' !in name && '@' !in name && ':' !in name
  }

  /** A reference to an image of the registry is read as what it names. */
  lemma ReferenceReads(owner: string, repo: string, tag: string)
    requires PlainName(owner) && PlainName(repo) && Trimmed(tag) && '@' !in tag && ':' !in tag
    ensures ParsedImage("ghcr.io/" + owner + "/" + repo + ":" + tag) == Some(ImageRef(owner, repo, tag))
  {
    var path := "ghcr.io/" + owner + "/" + repo;
    var target := path + ":" + tag;
    TrimCleanIsIdentity(target, IsSpace);
    PathAndTagOf(path, tag);
    RegistryPath(owner, repo);
    TrimCleanIsIdentity(owner, IsSpace);
    TrimCleanIsIdentity(repo, IsSpace);
    TrimCleanIsIdentity(tag, IsSpace);
  }

  lemma WrittenIsTrimmed(numbers: seq<nat>)
    requires Readable(numbers)
    ensures TrimSpace(Written(numbers)) == Written(numbers) && IsRelease(Written(numbers))
  {
    WrittenParts(numbers);
    hide PartsOf, Join, Itoa;
    JoinedIsClean(Texts(numbers));
    TrimCleanIsIdentity(Written(numbers), IsSpace);
  }

  lemma StandingIs(version: string, owner: string, repo: string, tag: string, tagName: string, url: string)
    requires PlainName(owner) && PlainName(repo) && Trimmed(tag) && '@' !in tag && ':' !in tag
    requires IsRelease(tagName) && CurrentRelease(version, tag) != ""
    ensures Standing(version, Running("ghcr.io/" + owner + "/" + repo + ":" + tag), Some(Release(tagName, url)))
            == Some(Compared(CurrentRelease(version, tag), tagName))
  {
    hide ParsedImage, TrimSpace, PartsOf, CompareFrom, CurrentRelease, PlainName;
    ImageReads(owner, repo, tag);
  }

  lemma CurrentIsOwn(mine: seq<nat>, tag: string)
    requires Readable(mine)
    ensures var current := CurrentRelease(Written(mine), tag);
            current != "" && forall other :: Compared(current, other) == Compared(Written(mine), other)
    ensures var current := CurrentRelease("", Written(mine));
            current != "" && forall other :: Compared(current, other) == Compared(Written(mine), other)
  {
    WrittenIsTrimmed(mine);
    EmptyTextIsNoRelease();
    TrimCleanIsIdentity("", IsSpace);
    hide TrimSpace, Written, PartsOf, CompareFrom;
    NormalizedIsNormal(Written(mine));
    NormalIsNotEmpty(Written(mine));
  }

  /** A controller that runs an image of the registry is offered the latest release exactly when the
      release that it runs is older: its own version, whatever the tag of its image; or, when it has none,
      the version of that tag. */
  lemma OfferedIffOlder(owner: string, repo: string, tag: string, mine: seq<nat>, latest: seq<nat>, url: string)
    requires PlainName(owner) && PlainName(repo) && Trimmed(tag) && '@' !in tag && ':' !in tag
    requires Readable(mine) && Readable(latest)
    ensures var controller, newest := Running("ghcr.io/" + owner + "/" + repo + ":" + tag), Some(Release(Written(latest), url));
            && (Newer(Written(mine), controller, newest) <==> exists k: nat :: Older(mine, latest, k))
            && (tag == Written(mine) ==> (Newer("", controller, newest) <==> exists k: nat :: Older(mine, latest, k)))
            && !Refreshes(Written(mine), controller, newest)
  {
    hide Standing, Written, Compared, CurrentRelease, Older, PlainName;
    WrittenIsTrimmed(latest);
    CurrentIsOwn(mine, tag);
    StandingIs(Written(mine), owner, repo, tag, Written(latest), url);
    if tag == Written(mine) {
      StandingIs("", owner, repo, tag, Written(latest), url);
    }
    ComparesNumbers(mine, latest);
  }

  lemma NothingRuns(tag: string)
    requires !IsRelease(tag)
    ensures CurrentRelease("", tag) == ""
  {
    EmptyTextIsNoRelease();
    TrimCleanIsIdentity("", IsSpace);
    hide PartsOf, TrimSpace;
    NormalIsNotEmpty(tag);
  }

  lemma ImageReads(owner: string, repo: string, tag: string)
    requires PlainName(owner) && PlainName(repo) && Trimmed(tag) && '@' !in tag && ':' !in tag
    ensures ParsedImage(TrimSpace("ghcr.io/" + owner + "/" + repo + ":" + tag)) == Some(ImageRef(owner, repo, tag))
  {
    TrimCleanIsIdentity("ghcr.io/" + owner + "/" + repo + ":" + tag, IsSpace);
    hide ParsedImage, TrimSpace;
    ReferenceReads(owner, repo, tag);
  }

  /** Where no release is known to run, "latest" and "main" can be pulled again, and nothing else. */
  lemma ChannelsRefresh(owner: string, repo: string, tag: string, latest: Option<Release>)
    requires PlainName(owner) && PlainName(repo) && Trimmed(tag) && '@' !in tag && ':' !in tag && !IsRelease(tag)
    ensures var controller := Running("ghcr.io/" + owner + "/" + repo + ":" + tag);
            Refreshes("", controller, latest) <==> ToLower(tag) in ["latest", "main"]
  {
    hide ParsedImage, TrimSpace, ToLower, PartsOf, CompareFrom, CurrentRelease, PlainName;
    ImageReads(owner, repo, tag);
    LowerIsTrimmed(tag);
    NothingRuns(tag);
  }

  lemma LowerIsTrimmed(tag: string)
    requires Trimmed(tag)
    ensures TrimSpace(ToLower(tag)) == ToLower(tag)
  {
    TrimCleanIsIdentity(ToLower(tag), IsSpace);
  }
}
