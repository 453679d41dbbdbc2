/**
 * NeedsCopy: whether one source file must be copied over its destination.
 * The direction says which side is the device; the rule itself does not
 * depend on the direction.
 */
module Decision {
  import opened Probe

  predicate IsDirection(command: string) {
    command == "pull" || command == "push"
  }

  /**
   * The copy rule on gathered metadata. A missing source is never copied; a
   * missing destination always is. Otherwise the sizes must differ AND the
   * source must be strictly newer; under checksum mode a digest mismatch
   * forces the copy on its own.
   */
  predicate CopyRule(source: Meta, dest: Meta, checksum: bool, sourceHash: string, destHash: string) {
    source.Present? &&
    (dest.Missing?
     || (source.size != dest.size && source.mtime > dest.mtime)
     || (checksum && sourceHash != destHash))
  }

  /** The source's metadata: asked of the device when pulling, of the host when pushing. */
  function SourceMeta(command: string, sourceFile: string, device: Device, host: Host): Meta
    requires DeviceOk(device)
  {
    if command == "pull" then GetRemoteFileMetadata(device.stat(sourceFile)) else host.stat(sourceFile)
  }

  /** The destination's metadata: asked of the host when pulling, of the device when pushing. */
  function DestMeta(command: string, destFile: string, device: Device, host: Host): Meta
    requires DeviceOk(device)
  {
    if command == "pull" then host.stat(destFile) else GetRemoteFileMetadata(device.stat(destFile))
  }

  /** The digest of each side, taken on the side the file lives on. */
  function SourceDigest(command: string, sourceFile: string, device: Device, host: Host): string {
    ComputeMD5Checksum(sourceFile, command == "pull", device, host)
  }

  function DestDigest(command: string, destFile: string, device: Device, host: Host): string {
    ComputeMD5Checksum(destFile, command != "pull", device, host)
  }

  /**
   * NeedsCopy, branch for branch: probe the source (false if it is missing),
   * probe the destination (true if it is missing), then compare.
   */
  function NeedsCopy(sourceFile: string, destFile: string, command: string, checksum: bool,
                     device: Device, host: Host): (copy: bool)
    requires DeviceOk(device)
    ensures !IsDirection(command) ==> !copy
    ensures IsDirection(command) ==>
      (copy <==> CopyRule(SourceMeta(command, sourceFile, device, host),
                          DestMeta(command, destFile, device, host),
                          checksum,
                          SourceDigest(command, sourceFile, device, host),
                          DestDigest(command, destFile, device, host)))
  {
    if command == "pull" then
      var sourceInfo := GetRemoteFileMetadata(device.stat(sourceFile));
      if sourceInfo.Missing? then false
      else
        var destInfo := host.stat(destFile);
        if destInfo.Missing? then true
        else if checksum then
          var sourceHash := ComputeMD5Checksum(sourceFile, true, device, host);
          var destHash := ComputeMD5Checksum(destFile, false, device, host);
          (sourceInfo.size != destInfo.size && sourceInfo.mtime > destInfo.mtime) || sourceHash != destHash
        else
          sourceInfo.size != destInfo.size && sourceInfo.mtime > destInfo.mtime
    else if command == "push" then
      var sourceInfo := host.stat(sourceFile);
      if sourceInfo.Missing? then false
      else
        var destInfo := GetRemoteFileMetadata(device.stat(destFile));
        if destInfo.Missing? then true
        else if checksum then
          var sourceHash := ComputeMD5Checksum(sourceFile, false, device, host);
          var destHash := ComputeMD5Checksum(destFile, true, device, host);
          (sourceInfo.size != destInfo.size && sourceInfo.mtime > destInfo.mtime) || sourceHash != destHash
        else
          sourceInfo.size != destInfo.size && sourceInfo.mtime > destInfo.mtime
    else
      false
  }

  /** The outcome of each branch of the rule. */
  lemma CopyRuleCases(source: Meta, dest: Meta, checksum: bool, sourceHash: string, destHash: string)
    ensures source.Missing? ==> !CopyRule(source, dest, checksum, sourceHash, destHash)
    ensures source.Present? && dest.Missing? ==> CopyRule(source, dest, checksum, sourceHash, destHash)
    ensures source.Present? && dest.Present? && !checksum ==>
      (CopyRule(source, dest, checksum, sourceHash, destHash) <==>
       source.size != dest.size && source.mtime > dest.mtime)
    ensures source.Present? && dest.Present? && checksum ==>
      (CopyRule(source, dest, checksum, sourceHash, destHash) <==>
       (source.size != dest.size && source.mtime > dest.mtime) || sourceHash != destHash)
  {
  }

  /**
   * A size change alone does not trigger a copy: a differing file that is
   * not strictly newer than its destination is skipped without checksums.
   */
  lemma SizeChangeAloneSkips(source: Meta, dest: Meta, sourceHash: string, destHash: string)
    requires source.Present? && dest.Present? && source.size != dest.size && source.mtime <= dest.mtime
    ensures !CopyRule(source, dest, false, sourceHash, destHash)
  {
  }

  /** Under checksum mode a digest mismatch forces the copy whatever the sizes and times. */
  lemma DigestMismatchForcesCopy(source: Meta, dest: Meta, sourceHash: string, destHash: string)
    requires source.Present? && sourceHash != destHash
    ensures CopyRule(source, dest, true, sourceHash, destHash)
  {
  }

  /**
   * When neither digest can be computed both are "", which compare equal:
   * checksum mode then decides exactly as the size-and-time rule does.
   */
  lemma FailedDigestsFallBack(source: Meta, dest: Meta)
    ensures CopyRule(source, dest, true, "", "") == CopyRule(source, dest, false, "", "")
  {
  }

  /**
   * Pull and push agree on the same gathered metadata and digests, however
   * the two sides were reached.
   */
  lemma DirectionsAgree(pullSource: string, pullDest: string, pullDevice: Device, pullHost: Host,
                        pushSource: string, pushDest: string, pushDevice: Device, pushHost: Host,
                        checksum: bool)
    requires DeviceOk(pullDevice) && DeviceOk(pushDevice)
    requires SourceMeta("pull", pullSource, pullDevice, pullHost) == SourceMeta("push", pushSource, pushDevice, pushHost)
    requires DestMeta("pull", pullDest, pullDevice, pullHost) == DestMeta("push", pushDest, pushDevice, pushHost)
    requires SourceDigest("pull", pullSource, pullDevice, pullHost) == SourceDigest("push", pushSource, pushDevice, pushHost)
    requires DestDigest("pull", pullDest, pullDevice, pullHost) == DestDigest("push", pushDest, pushDevice, pushHost)
    ensures NeedsCopy(pullSource, pullDest, "pull", checksum, pullDevice, pullHost)
         == NeedsCopy(pushSource, pushDest, "push", checksum, pushDevice, pushHost)
  {
  }
}
