/**
 * What the sync engine learns from the device and from the host. Every
 * command it runs (adb shell stat / md5sum / ls -R, filepath.Walk, os.Stat,
 * os.MkdirAll, reading a file for its MD5) is represented by its reply, as a
 * function of the path asked about; the parsing of the device's replies
 * follows strconv and strings, and the seconds-to-nanoseconds conversion is
 * exact (without time.Unix's wrap-around for absurd second counts).
 */
module Probe {
  import opened Wrappers
  import opened Text
  import opened Numbers

  const NanosPerSecond: nat := 1_000_000_000

  /**
   * The metadata the copy decision compares. Modification times are in
   * nanoseconds since the epoch: os.Stat reports sub-second times, while the
   * device's stat reply carries whole seconds.
   */
  datatype Meta = Missing | Present(size: nat, mtime: int)

  /**
   * Replies of the device, by path: `None` when the adb command fails,
   * otherwise its standard output.
   *   ls     — adb shell ls -R <path>
   *   stat   — adb shell stat -c %s,%Y <path>
   *   md5sum — adb shell md5sum <path>
   */
  datatype Device = Device(
    ls: string -> Option<string>,
    stat: string -> Option<string>,
    md5sum: string -> Option<string>)

  /** One call of filepath.Walk's callback: a visited path, or the error it was handed. */
  datatype Visit = Entry(path: string, isDir: bool) | WalkError(path: string)

  /**
   * The host, by path:
   *   walk     — the visits filepath.Walk makes under a root, in order
   *   stat     — os.Stat: Missing on error, else size and modification time
   *   md5      — hex MD5 of the file's bytes, "" when it cannot be read
   *   mkdirAll — whether os.MkdirAll succeeds for the directory
   */
  datatype Host = Host(
    walk: string -> seq<Visit>,
    stat: string -> Meta,
    md5: string -> string,
    mkdirAll: string -> bool)

  /**
   * A stat reply the parser can index: a failed command, empty output, or
   * output whose trimmed text has a comma. Any other reply makes
   * GetRemoteFileMetadata index past the end of its split.
   */
  predicate StatReplyOk(reply: Option<string>) {
    reply.None? || |reply.value| == 0 || ',' in TrimSpace(reply.value)
  }

  /** The device answers every stat query in a form the parser can index. */
  ghost predicate DeviceOk(device: Device) {
    forall p :: StatReplyOk(device.stat(p))
  }

  /**
   * GetRemoteFileMetadata: the size and whole-second mtime from the
   * "size,mtime" stat reply. A failed command or empty output means the file
   * is missing; unparsable fields read as zero.
   */
  function GetRemoteFileMetadata(reply: Option<string>): (m: Meta)
    requires StatReplyOk(reply)
    ensures m.Missing? <==> reply.None? || |reply.value| == 0
    ensures m.Present? ==> m.size <= MaxUint64
  {
    match reply
    case None => Missing
    case Some(output) =>
      if |output| > 0 then
        var fields := Split(TrimSpace(output), ',');
        var seconds := ParseInt(fields[1]);
        Present(ParseUint(fields[0]), seconds * NanosPerSecond)
      else
        Missing
  }

  /** A reply whose trimmed text is "<size field>,<mtime field>" parses each field on its own. */
  lemma StatOfFields(output: string, sizeText: string, mtimeText: string)
    requires ',' !in sizeText && ',' !in mtimeText
    requires TrimSpace(output) == sizeText + "," + mtimeText
    ensures StatReplyOk(Some(output))
    ensures GetRemoteFileMetadata(Some(output)) == Present(ParseUint(sizeText), ParseInt(mtimeText) * NanosPerSecond)
  {
    assert sizeText + "," + mtimeText == sizeText + [','] + mtimeText;
    SplitPair(sizeText, mtimeText, ',');
  }

  /** A reply in the format stat prints parses back to the values printed. */
  lemma StatReplyRoundTrip(size: nat, seconds: int)
    requires size <= MaxUint64 && MinInt64 <= seconds <= MaxInt64
    ensures var reply := FormatUint(size) + "," + FormatInt(seconds) + "\n";
            StatReplyOk(Some(reply)) &&
            GetRemoteFileMetadata(Some(reply)) == Present(size, seconds * NanosPerSecond)
  {
    var a, b := FormatUint(size), FormatInt(seconds);
    FormattedReplyTrims(size, seconds);
    NoCommaInFormatted(size, seconds);
    StatOfFields(a + "," + b + "\n", a, b);
    ParseUintRoundTrip(size);
    ParseIntRoundTrip(seconds);
  }

  /** The line stat prints loses only its line break to TrimSpace. */
  lemma FormattedReplyTrims(size: nat, seconds: int)
    ensures var s := FormatUint(size) + "," + FormatInt(seconds);
            TrimSpace(s + "\n") == s
  {
    var a, b := FormatUint(size), FormatInt(seconds);
    var s := a + "," + b;
    assert IsDigit(a[0]) && s[0] == a[0];
    assert s[|s| - 1] == b[|b| - 1];
    TrimSpaceOfPadded("", s, "\n");
    assert "" + s + "\n" == s + "\n";
  }

  lemma NoCommaInFormatted(size: nat, seconds: int)
    ensures ',' !in FormatUint(size) && ',' !in FormatInt(seconds)
  {
    assert IsDecimal(FormatUint(size));
    if seconds < 0 {
      var b := FormatInt(seconds);
      assert b == "-" + FormatUint(-seconds);
      assert IsDecimal(b[1..]);
    }
  }

  /**
   * The two fields are parsed independently, each falling back to zero on
   * its own: "abc,123" is a zero-size file, not a failed probe. A size whose
   * leading digits overflow reads as the largest size, whatever follows.
   */
  lemma StatFieldsFallBackToZero(sizeText: string, mtimeText: string)
    requires ',' !in sizeText && ',' !in mtimeText
    requires Trimmed(sizeText + "," + mtimeText)
    ensures var m := GetRemoteFileMetadata(Some(sizeText + "," + mtimeText));
            && m == Present(ParseUint(sizeText), ParseInt(mtimeText) * NanosPerSecond)
            && (!IsDecimal(sizeText) && DecimalValue(DigitPrefix(sizeText)) <= MaxUint64 ==> m.size == 0)
            && (DecimalValue(DigitPrefix(sizeText)) > MaxUint64 ==> m.size == MaxUint64)
  {
    StatOfFields(sizeText + "," + mtimeText, sizeText, mtimeText);
  }

  /**
   * The digest in an md5sum reply: the first space-separated token of the
   * trimmed output; "" when the command fails or prints nothing.
   */
  function RemoteDigest(reply: Option<string>): (digest: string)
    ensures ' ' !in digest
    ensures reply.None? ==> digest == ""
    ensures reply.Some? ==> |digest| <= |TrimSpace(reply.value)| && digest == TrimSpace(reply.value)[..|digest|]
    ensures reply.Some? ==> |digest| == |TrimSpace(reply.value)| || TrimSpace(reply.value)[|digest|] == ' '
  {
    match reply
    case None => ""
    case Some(output) =>
      if |output| > 0 then
        var text := TrimSpace(output);
        FirstPiece(text, ' ');
        Split(text, ' ')[0]
      else
        ""
  }

  /** The digest of a reply "<hex>  <path>\n" is the hex string. */
  lemma RemoteDigestRoundTrip(hex: string, path: string)
    requires hex != [] && forall i :: 0 <= i < |hex| ==> !IsSpace(hex[i])
    ensures RemoteDigest(Some(hex + "  " + path + "\n")) == hex
  {
    var rest := "  " + path + "\n";
    assert hex + "  " + path + "\n" == hex + rest;
    RemoteDigestOfPadded(hex, rest);
  }

  /** A reply that is `hex` followed by a space and anything has `hex` as its digest. */
  lemma RemoteDigestOfPadded(hex: string, rest: string)
    requires hex != [] && forall i :: 0 <= i < |hex| ==> !IsSpace(hex[i])
    requires rest != [] && rest[0] == ' '
    ensures RemoteDigest(Some(hex + rest)) == hex
  {
    var text := TrimSpace(hex + rest);
    TrimmedReplyStartsWith(hex, rest);
    FirstTokenOf(hex, text);
  }

  /** Trimming `hex` followed by padding keeps `hex` at the front, followed by nothing or a space. */
  lemma TrimmedReplyStartsWith(hex: string, rest: string)
    requires hex != [] && forall i :: 0 <= i < |hex| ==> !IsSpace(hex[i])
    requires rest != [] && rest[0] == ' '
    ensures var text := TrimSpace(hex + rest);
      |hex| <= |text| && text[..|hex|] == hex && (|text| == |hex| || text[|hex|] == ' ')
  {
    var output := hex + rest;
    assert TrimLeft(output) == output;
    TrimRightKeeps(hex, rest);
    TrimRightFacts(output);
    assert TrimSpace(output) == output[..|TrimSpace(output)|];
  }

  /** The first space-separated token of a text that starts with `hex`, then nothing or a space, is `hex`. */
  lemma FirstTokenOf(hex: string, text: string)
    requires forall i :: 0 <= i < |hex| ==> !IsSpace(hex[i])
    requires |hex| <= |text| && text[..|hex|] == hex && (|text| == |hex| || text[|hex|] == ' ')
    ensures Split(text, ' ')[0] == hex
  {
    assert ' ' !in hex by {
      assert forall k :: 0 <= k < |hex| ==> hex[k] != ' ';
    }
    if |text| == |hex| {
      assert text == hex;
    } else {
      assert text == hex + [' '] + text[|hex| + 1..];
      SplitCons(hex, text[|hex| + 1..], ' ');
    }
  }

  /**
   * ComputeMD5Checksum: the device's md5sum token when `useAdb`, otherwise
   * the host's digest of the file.
   */
  function ComputeMD5Checksum(path: string, useAdb: bool, device: Device, host: Host): (digest: string)
    ensures useAdb ==> ' ' !in digest
    ensures useAdb && device.md5sum(path).None? ==> digest == ""
  {
    if useAdb then RemoteDigest(device.md5sum(path)) else host.md5(path)
  }
}
