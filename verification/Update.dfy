/**
 The self-update: fetch, confirm, verify the checksum, then replace the executable. Version parsing, UTF-8
 decoding and the hash are parameters; the Unix replacement is modelled.
 */
module Update {
  import opened Wrappers
  import opened Text
  import opened Binary
  import opened Checksum

  datatype Asset = Asset(name: string, url: string)

  datatype Release = Release(tagName: string, assets: seq<Asset>)

  /** What the outside world answers: the release, the downloads, and the pure library functions. */
  datatype Source = Source(
    release: Option<Release>,
    downloads: map<string, Bytes>,
    current: nat,
    parseVersion: string -> Option<nat>,
    decode: Bytes -> Option<string>,
    sha: Bytes -> Bytes)

  datatype Arguments = Arguments(yes: bool, check: bool, version: Option<string>, os: string, arch: string)

  datatype Terminal = Terminal(isTerminal: bool, answer: Option<string>)

  datatype ExitCode = Clean | OperationalError | ConfigOrArgError

  datatype Confirmation = Proceed | Aborted | NonInteractiveWithoutYes

  datatype UpdateError =
    | FetchFailed | BadVersion | ReadFailed | NoAsset(name: string) | DownloadFailed(url: string) | NotUtf8
    | BadManifest(error: ChecksumError) | ReplaceFailed

  const SUMS := "SHA256SUMS.txt"

  function TargetAssetName(os: string, arch: string): Option<string> {
    if os == "windows" && (arch == "x86_64" || arch == "aarch64") then Some("anne-x86_64-pc-windows-msvc.exe")
    else if os == "linux" && arch == "x86_64" then Some("anne-x86_64-unknown-linux-musl")
    else if os == "linux" && arch == "aarch64" then Some("anne-aarch64-unknown-linux-musl")
    else None
  }

  function DecideConfirmation(yes: bool, isTerminal: bool, answer: Option<string>): Confirmation {
    if yes then Proceed
    else if !isTerminal then NonInteractiveWithoutYes
    else if answer.Some? && Lowered(Trim(answer.value)) in {"y", "yes"} then Proceed
    else Aborted
  }

  /** Where the replacement can fail, and how much of the temporary file is then written. */
  datatype Fault = NoFault | NoParent | WriteFails(written: Bytes) | PermissionsFail | RenameFails

  class Installation {
    var target: Option<Bytes>
    var runnable: bool
    var temp: Option<Bytes>

    /** Write beside the target, make executable, rename: the target holds its old bytes or all the new ones. */
    method ReplaceRunningExecutable(bytes: Bytes, fault: Fault) returns (ok: bool)
      modifies this
      ensures ok == (fault == NoFault)
      ensures ok ==> target == Some(bytes) && runnable && temp == None
      ensures !ok ==> target == old(target) && runnable == old(runnable)
    {
      if fault.NoParent? {
        return false;
      }
      if fault.WriteFails? {
        temp := Some(fault.written);
        return false;
      }
      temp := Some(bytes);
      var tempRunnable := true;
      if fault.PermissionsFail? || fault.RenameFails? {
        return false;
      }
      target, runnable, temp := temp, tempRunnable, None;
      return true;
    }

    /** The whole run: every check precedes the first write. */
    method RunWithSource(source: Source, args: Arguments, terminal: Terminal, fault: Fault)
      returns (r: Result<ExitCode, UpdateError>)
      modifies this
      ensures Planned(source, args, terminal).Install? ==>
        var bytes := Planned(source, args, terminal).bytes;
        if fault == NoFault then r == Ok(Clean) && target == Some(bytes) && runnable
        else r == Err(ReplaceFailed) && target == old(target) && runnable == old(runnable)
      ensures Planned(source, args, terminal).Stop? ==>
        r == Planned(source, args, terminal).outcome && target == old(target) && runnable == old(runnable) && temp == old(temp)
    {
      if source.release.None? {
        return Err(FetchFailed);
      }
      var release := source.release.value;
      var version := source.parseVersion(release.tagName);
      if version.None? {
        return Err(BadVersion);
      }
      if args.check {
        return Ok(Clean);
      }
      if version.value <= source.current && args.version.None? {
        return Ok(Clean);
      }
      var assetName := TargetAssetName(args.os, args.arch);
      if assetName.None? {
        return Ok(OperationalError);
      }
      if !args.yes && terminal.isTerminal && terminal.answer.None? {
        return Err(ReadFailed);
      }
      var confirmation := DecideConfirmation(args.yes, terminal.isTerminal, terminal.answer);
      if confirmation.NonInteractiveWithoutYes? {
        return Ok(ConfigOrArgError);
      }
      if confirmation.Aborted? {
        return Ok(Clean);
      }
      var asset := FindAsset(release.assets, assetName.value);
      if asset.None? {
        return Err(NoAsset(assetName.value));
      }
      var sumsAsset := FindAsset(release.assets, SUMS);
      if sumsAsset.None? {
        return Err(NoAsset(SUMS));
      }
      if asset.value.url !in source.downloads {
        return Err(DownloadFailed(asset.value.url));
      }
      var bytes := source.downloads[asset.value.url];
      if sumsAsset.value.url !in source.downloads {
        return Err(DownloadFailed(sumsAsset.value.url));
      }
      var sums := source.decode(source.downloads[sumsAsset.value.url]);
      if sums.None? {
        return Err(NotUtf8);
      }
      var expected := ExpectedDigestFor(sums.value, assetName.value);
      if expected.Err? {
        return Err(BadManifest(expected.error));
      }
      var actual := Sha256Hex(bytes, source.sha);
      if actual != expected.value {
        return Ok(OperationalError);
      }
      var ok := ReplaceRunningExecutable(bytes, fault);
      return if ok then Ok(Clean) else Err(ReplaceFailed);
    }
  }

  function FindAsset(assets: seq<Asset>, name: string): (r: Option<Asset>)
    ensures r.Some? <==> exists a :: a in assets && a.name == name
    ensures r.Some? ==> r.value in assets && r.value.name == name
  {
    if assets == [] then None else if assets[0].name == name then Some(assets[0]) else FindAsset(assets[1..], name)
  }

  // ----- what a run will do -----

  datatype Plan = Stop(outcome: Result<ExitCode, UpdateError>) | Install(bytes: Bytes)

  function Planned(source: Source, args: Arguments, terminal: Terminal): Plan {
    if source.release.None? then Stop(Err(FetchFailed))
    else
      var version := source.parseVersion(source.release.value.tagName);
      var name := TargetAssetName(args.os, args.arch);
      var confirmation := DecideConfirmation(args.yes, terminal.isTerminal, terminal.answer);
      if version.None? then Stop(Err(BadVersion))
      else if args.check || (version.value <= source.current && args.version.None?) then Stop(Ok(Clean))
      else if name.None? then Stop(Ok(OperationalError))
      else if !args.yes && terminal.isTerminal && terminal.answer.None? then Stop(Err(ReadFailed))
      else if confirmation.NonInteractiveWithoutYes? then Stop(Ok(ConfigOrArgError))
      else if confirmation.Aborted? then Stop(Ok(Clean))
      else PlannedInstall(source, source.release.value.assets, name.value)
  }

  function PlannedInstall(source: Source, assets: seq<Asset>, name: string): Plan {
    var asset, sumsAsset := FindAsset(assets, name), FindAsset(assets, SUMS);
    if asset.None? then Stop(Err(NoAsset(name)))
    else if sumsAsset.None? then Stop(Err(NoAsset(SUMS)))
    else if asset.value.url !in source.downloads then Stop(Err(DownloadFailed(asset.value.url)))
    else if sumsAsset.value.url !in source.downloads then Stop(Err(DownloadFailed(sumsAsset.value.url)))
    else
      var bytes := source.downloads[asset.value.url];
      match source.decode(source.downloads[sumsAsset.value.url])
      case None => Stop(Err(NotUtf8))
      case Some(sums) =>
        match DigestIn(Lines(sums), name)
        case None => Stop(Err(BadManifest(NoEntry(name))))
        case Some(digest) => if Hex(source.sha(bytes)) != digest then Stop(Ok(OperationalError)) else Install(bytes)
  }

  /** The release carries, as its sums, a manifest written from these artifacts, and serves these bytes for the asset. */
  predicate Serves(source: Source, assets: seq<Asset>, name: string, artifacts: seq<Artifact>, bytes: Bytes) {
    var asset, sums := FindAsset(assets, name), FindAsset(assets, SUMS);
    && asset.Some? && sums.Some? && asset.value.url in source.downloads && sums.value.url in source.downloads
    && source.downloads[asset.value.url] == bytes
    && WriteManifest(artifacts, source.sha).Ok?
    && source.decode(source.downloads[sums.value.url]) == Some(WriteManifest(artifacts, source.sha).value)
  }

  /** From the release build to the installed file: against a manifest written at release time, the served
      bytes are installed exactly when they hash like the released artifact of that name. */
  lemma InstallsWhatWasReleased(source: Source, assets: seq<Asset>, name: string, artifacts: seq<Artifact>, bytes: Bytes, released: Artifact)
    requires artifacts != [] && Readable(artifacts) && Serves(source, assets, name, artifacts, bytes)
    requires released in artifacts && released.name == name && forall a :: a in artifacts && a.name == name ==> a == released
    ensures PlannedInstall(source, assets, name) == Install(bytes) <==> source.sha(bytes) == source.sha(released.content.value)
    ensures PlannedInstall(source, assets, name).Stop? ==> PlannedInstall(source, assets, name).outcome == Ok(OperationalError)
  {
    DigestFoundExactlyWhen(artifacts, name, source.sha);
    if Hex(source.sha(bytes)) == Hex(source.sha(released.content.value)) {
      HexInjective(source.sha(bytes), source.sha(released.content.value));
    }
    hide WriteManifest, Lines, DigestIn, Hex, GoodName;
  }

  /** The i-th asset is the first of its name. */
  predicate First(assets: seq<Asset>, i: nat, name: string) {
    i < |assets| && assets[i].name == name && forall j :: 0 <= j < i ==> assets[j].name != name
  }

  lemma {:induction false} FindsFirst(assets: seq<Asset>, name: string)
    ensures FindAsset(assets, name).Some? ==>
      exists i :: 0 <= i < |assets| && First(assets, i, name) && assets[i] == FindAsset(assets, name).value
    ensures forall i :: 0 <= i < |assets| && First(assets, i, name) ==> FindAsset(assets, name) == Some(assets[i])
  {
    if assets != [] {
      FindsFirst(assets[1..], name);
      if assets[0].name == name {
        assert First(assets, 0, name);
      } else {
        if i :| 0 <= i < |assets| - 1 && First(assets[1..], i, name) && assets[1..][i] == FindAsset(assets[1..], name).value {
          assert First(assets, i + 1, name) && assets[i + 1] == assets[1..][i];
        }
        forall i | 0 <= i < |assets| && First(assets, i, name) ensures FindAsset(assets, name) == Some(assets[i]) {
          assert First(assets[1..], i - 1, name);
        }
      }
    }
  }

  predicate Confirmed(args: Arguments, terminal: Terminal) {
    args.yes || (terminal.isTerminal && terminal.answer.Some? && Lowered(Trim(terminal.answer.value)) in {"y", "yes"})
  }

  /** The bytes are what the asset's address serves, and the digest that the served sums list for it is theirs. */
  predicate Vouched(source: Source, asset: Asset, sumsAsset: Asset, bytes: Bytes) {
    && asset.url in source.downloads && source.downloads[asset.url] == bytes
    && sumsAsset.url in source.downloads
    && var sums := source.decode(source.downloads[sumsAsset.url]);
       sums.Some? && DigestIn(Lines(sums.value), asset.name) == Some(Hex(source.sha(bytes)))
  }

  predicate VouchedIn(source: Source, assets: seq<Asset>, name: string, bytes: Bytes) {
    exists i, j :: 0 <= i < |assets| && 0 <= j < |assets|
      && First(assets, i, name) && First(assets, j, SUMS) && Vouched(source, assets[i], assets[j], bytes)
  }

  lemma InstallMeans(source: Source, assets: seq<Asset>, name: string, bytes: Bytes)
    ensures PlannedInstall(source, assets, name) == Install(bytes) <==> VouchedIn(source, assets, name, bytes)
  {
    FindsFirst(assets, name);
    FindsFirst(assets, SUMS);
    hide DigestIn, Lines, Hex, First;
    if PlannedInstall(source, assets, name) == Install(bytes) {
      var i :| 0 <= i < |assets| && First(assets, i, name) && assets[i] == FindAsset(assets, name).value;
      var j :| 0 <= j < |assets| && First(assets, j, SUMS) && assets[j] == FindAsset(assets, SUMS).value;
      assert Vouched(source, assets[i], assets[j], bytes);
    }
  }

  /** These bytes are installed exactly when the release is newer or was asked for by version, this is no `--check`,
      the platform has an asset, the user agreed, and the release's own sums vouch for the bytes served as it. */
  lemma InstallsExactlyWhen(source: Source, args: Arguments, terminal: Terminal, bytes: Bytes)
    ensures Planned(source, args, terminal) == Install(bytes) <==>
      && source.release.Some?
      && var version := source.parseVersion(source.release.value.tagName);
      && version.Some? && !args.check && (version.value > source.current || args.version.Some?)
      && Confirmed(args, terminal)
      && var name := TargetAssetName(args.os, args.arch);
      && name.Some? && VouchedIn(source, source.release.value.assets, name.value, bytes)
  {
    hide TargetAssetName, PlannedInstall, VouchedIn, Lowered, Trim;
    var name := TargetAssetName(args.os, args.arch);
    if source.release.Some? && name.Some? {
      InstallMeans(source, source.release.value.assets, name.value, bytes);
    }
  }

  // ----- the other outcomes -----

  function LinuxBuild(arch: string): string { "anne-" + arch + "-unknown-linux-musl" }

  lemma LinuxBuilds()
    ensures LinuxBuild("x86_64") == "anne-x86_64-unknown-linux-musl"
    ensures LinuxBuild("aarch64") == "anne-aarch64-unknown-linux-musl"
  {
  }

  /** Linux gets the build for its own architecture, Windows the one for x86_64, and nothing else gets any. */
  lemma AssetFitsPlatform(os: string, arch: string)
    ensures TargetAssetName(os, arch) ==
      if arch !in {"x86_64", "aarch64"} then None
      else if os == "linux" then Some(LinuxBuild(arch))
      else if os == "windows" then Some("anne-x86_64-pc-windows-msvc.exe")
      else None
  {
    LinuxBuilds();
    hide LinuxBuild;
    assert |"linux"| == 5 && |"windows"| == 7;
  }

  predicate VersionKnown(source: Source) {
    source.release.Some? && source.parseVersion(source.release.value.tagName).Some?
  }

  /** An update is called for: no `--check`, and a newer version or one that was asked for. */
  predicate Wanted(source: Source, args: Arguments) {
    && VersionKnown(source) && !args.check
    && (source.parseVersion(source.release.value.tagName).value > source.current || args.version.Some?)
  }

  predicate HasBuild(args: Arguments) { TargetAssetName(args.os, args.arch).Some? }

  predicate Offered(assets: seq<Asset>, name: string) { exists a :: a in assets && a.name == name }

  /** The asset and the sums are there, download and decode, and the sums list this digest for the asset. */
  predicate Listed(source: Source, name: string, bytes: Bytes, digest: string)
    requires source.release.Some?
  {
    var assets := source.release.value.assets;
    exists i, j :: 0 <= i < |assets| && 0 <= j < |assets| && First(assets, i, name) && First(assets, j, SUMS)
      && assets[i].url in source.downloads && source.downloads[assets[i].url] == bytes
      && SumsOf(source, assets[j]).Some? && DigestIn(Lines(SumsOf(source, assets[j]).value), name) == Some(digest)
  }

  /** What the sums asset decodes to, if it downloads and decodes. */
  function SumsOf(source: Source, sums: Asset): Option<string> {
    if sums.url in source.downloads then source.decode(source.downloads[sums.url]) else None
  }

  ghost predicate Mismatches(source: Source, name: string)
    requires source.release.Some?
  {
    exists bytes, digest :: Listed(source, name, bytes, digest) && digest != Hex(source.sha(bytes))
  }

  /** When a run that changes nothing ends, and with what exit code. Nothing to do and a refusal at the prompt are
      clean; a platform without a build and a checksum that does not match are operational errors; a prompt nobody
      can answer is an argument error. */
  lemma ExitsExactlyWhen(source: Source, args: Arguments, terminal: Terminal)
    ensures var plan := Planned(source, args, terminal);
      && (plan == Stop(Err(FetchFailed)) <==> source.release.None?)
      && (plan == Stop(Err(BadVersion)) <==> source.release.Some? && !VersionKnown(source))
      && (plan == Stop(Ok(Clean)) <==>
            || (VersionKnown(source) && !Wanted(source, args))
            || (Wanted(source, args) && HasBuild(args) && !Confirmed(args, terminal) && terminal.isTerminal && terminal.answer.Some?))
      && (plan == Stop(Ok(ConfigOrArgError)) <==> Wanted(source, args) && HasBuild(args) && !args.yes && !terminal.isTerminal)
      && (plan == Stop(Err(ReadFailed)) <==>
            Wanted(source, args) && HasBuild(args) && !args.yes && terminal.isTerminal && terminal.answer.None?)
      && (plan == Stop(Ok(OperationalError)) <==>
            || (Wanted(source, args) && !HasBuild(args))
            || (Wanted(source, args) && Confirmed(args, terminal) && Mismatches(source, TargetAssetName(args.os, args.arch).value)))
  {
    hide TargetAssetName, PlannedInstall, Listed, Lowered, Trim;
    if Wanted(source, args) && HasBuild(args) {
      MismatchMeans(source, source.release.value.assets, TargetAssetName(args.os, args.arch).value);
    }
  }

  lemma ListedMeans(source: Source, name: string, bytes: Bytes, digest: string)
    requires source.release.Some?
    ensures var a, s := FindAsset(source.release.value.assets, name), FindAsset(source.release.value.assets, SUMS);
      Listed(source, name, bytes, digest) <==>
        && a.Some? && s.Some? && a.value.url in source.downloads && source.downloads[a.value.url] == bytes
        && SumsOf(source, s.value).Some? && DigestIn(Lines(SumsOf(source, s.value).value), name) == Some(digest)
  {
    var assets := source.release.value.assets;
    FindsFirst(assets, name);
    FindsFirst(assets, SUMS);
    hide DigestIn, Lines, First, SumsOf;
  }

  lemma MismatchMeans(source: Source, assets: seq<Asset>, name: string)
    requires source.release.Some? && assets == source.release.value.assets
    ensures PlannedInstall(source, assets, name) == Stop(Ok(OperationalError)) <==> Mismatches(source, name)
    ensures var plan := PlannedInstall(source, assets, name);
      plan != Stop(Ok(Clean)) && plan != Stop(Ok(ConfigOrArgError)) && plan != Stop(Err(ReadFailed))
      && plan != Stop(Err(FetchFailed)) && plan != Stop(Err(BadVersion))
  {
    hide DigestIn, Lines, Hex, Listed;
    forall bytes, digest {
      ListedMeans(source, name, bytes, digest);
    }
    if PlannedInstall(source, assets, name) == Stop(Ok(OperationalError)) {
      var a, s := FindAsset(assets, name).value, FindAsset(assets, SUMS).value;
      var digest := DigestIn(Lines(SumsOf(source, s).value), name).value;
      assert Listed(source, name, source.downloads[a.url], digest);
    }
  }

  predicate Decodes(source: Source, sums: Asset) { sums.url in source.downloads && SumsOf(source, sums).Some? }

  /** After the user agreed, what is missing is what the error names, in this order: the asset, the sums, their
      downloads, readable sums, and a line of theirs for the asset. `i` and `j` are the asset's and the sums' places. */
  lemma MissingExactlyWhen(source: Source, assets: seq<Asset>, name: string, i: nat, j: nat)
    ensures !Offered(assets, name) ==> PlannedInstall(source, assets, name) == Stop(Err(NoAsset(name)))
    ensures Offered(assets, name) && !Offered(assets, SUMS) ==> PlannedInstall(source, assets, name) == Stop(Err(NoAsset(SUMS)))
    ensures First(assets, i, name) && First(assets, j, SUMS) ==>
      var plan := PlannedInstall(source, assets, name);
      if assets[i].url !in source.downloads then plan == Stop(Err(DownloadFailed(assets[i].url)))
      else if assets[j].url !in source.downloads then plan == Stop(Err(DownloadFailed(assets[j].url)))
      else if !Decodes(source, assets[j]) then plan == Stop(Err(NotUtf8))
      else (plan == Stop(Err(BadManifest(NoEntry(name))))
            <==> forall l :: l in Lines(SumsOf(source, assets[j]).value) ==> !Names(l, name))
  {
    FindsFirst(assets, name);
    FindsFirst(assets, SUMS);
    if First(assets, j, SUMS) && Decodes(source, assets[j]) {
      DigestInMeans(Lines(SumsOf(source, assets[j]).value), name);
    }
    hide DigestIn, Lines, Hex, First, Names;
    if First(assets, i, name) && First(assets, j, SUMS) {
      assert FindAsset(assets, name) == Some(assets[i]) && FindAsset(assets, SUMS) == Some(assets[j]);
    }
  }
}
