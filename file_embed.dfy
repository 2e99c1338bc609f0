/**
 * The attachment card of a message (`FileEmbed`): the extension label under
 * the file icon, the action button's icon and visibility, the upload
 * progress bar and its text, the line describing the file, and the
 * image test on the file name. The size formatter (`format_size` in decimal
 * units) and the extension of a path (`Path::extension`) are parameters.
 */
module FileEmbed {
  import opened Wrappers
  import opened Entities
  import opened Text

  // ===== Extension label =====

  /**
   * The label as the card computes it: nothing without an extension; an
   * extension of more than 6 bytes shortened to its first 4 bytes and "...";
   * otherwise the whole extension, each after a dot. Slicing at byte 4
   * panics when byte 4 falls inside a character.
   */
  function ExtensionLabelAsWritten(extension: Option<string>): Checked<string>
  {
    match extension
    case None => Returns("")
    case Some(s) =>
      if ByteLen(s) > 6 then
        match CharIndexAtByte(s, 4)
        case None => Panics
        case Some(k) => Returns("." + s[..k] + "...")
      else Returns("." + s)
  }

  /**
   * The label with the shortening cut at the last character boundary at or
   * before byte 4, so that it never panics.
   */
  function ExtensionLabel(extension: Option<string>): (r: string)
    ensures r == "" <==> extension.None?
    ensures extension.Some? && ByteLen(extension.value) <= 6 ==> r == "." + extension.value
    ensures extension.Some? && ByteLen(extension.value) > 6 ==>
              exists p :: p <= extension.value && ByteLen(p) <= 4 && r == "." + p + "..."
  {
    match extension
    case None => ""
    case Some(s) =>
      if ByteLen(s) > 6 then
        var p := FloorCharPrefix(s, 4);
        assert p <= s && ByteLen(p) <= 4;
        "." + p + "..."
      else "." + s
  }

  /** Whenever the card's label does not panic, it is the corrected label. */
  lemma {:induction false} ExtensionLabelAgrees(extension: Option<string>)
    ensures ExtensionLabelAsWritten(extension).Returns? ==>
              ExtensionLabelAsWritten(extension).value == ExtensionLabel(extension)
  {
    if extension.Some? && ByteLen(extension.value) > 6 {
      var s := extension.value;
      var r := CharIndexAtByte(s, 4);
      if r.Some? {
        FloorCharPrefixExact(s, 4, r.value);
      }
    }
  }

  /** The card panics on the extension "aéééé" (9 bytes, byte 4 inside the second "é"); the corrected label keeps "aé". */
  lemma {:induction false} ExtensionLabelPanics()
    ensures ExtensionLabelAsWritten(Some("a\U{E9}\U{E9}\U{E9}\U{E9}")) == Panics
    ensures ExtensionLabel(Some("a\U{E9}\U{E9}\U{E9}\U{E9}")) == ".a\U{E9}..."
  {
    WitnessNoBoundary();
    WitnessCut();
    WitnessByteLengths();
  }

  /** Byte 4 of "aéééé" is inside the second "é": no character index has a 4-byte prefix. */
  lemma {:induction false} WitnessNoBoundary()
    ensures CharIndexAtByte("a\U{E9}\U{E9}\U{E9}\U{E9}", 4).None?
  {
    var s := "a\U{E9}\U{E9}\U{E9}\U{E9}";
    assert s[..2] == "a\U{E9}" && s[..3] == "a\U{E9}\U{E9}";
    WitnessByteLengths();
    if CharIndexAtByte(s, 4).Some? {
      var k := CharIndexAtByte(s, 4).value;
      if k <= 2 { ByteLenPrefixMonotone(s, k, 2); }
      else { ByteLenPrefixMonotone(s, 3, k); }
    }
  }

  /** The longest whole-character prefix of "aéééé" within 4 bytes is "aé". */
  lemma {:induction false} WitnessCut()
    ensures FloorCharPrefix("a\U{E9}\U{E9}\U{E9}\U{E9}", 4) == "a\U{E9}"
  {
    var s := "a\U{E9}\U{E9}\U{E9}\U{E9}";
    assert s[..2] == "a\U{E9}" && s[..3] == "a\U{E9}\U{E9}";
    WitnessByteLengths();
    FloorCharPrefixExact(s, 3, 2);
    var p := FloorCharPrefix(s, 4);
    assert s[..|p|] == p;
  }

  /** The byte lengths of the prefixes of "aéééé" that the panic witness needs. */
  lemma {:induction false} WitnessByteLengths()
    ensures ByteLen("a\U{E9}") == 3 && ByteLen("a\U{E9}\U{E9}") == 5
    ensures ByteLen("a\U{E9}\U{E9}\U{E9}\U{E9}") == 9
  {
    var a, e := "a", "\U{E9}";
    assert ByteLen(a) == 1 && ByteLen(e) == 2;
    ByteLenAppend(a, e);
    assert a + e == "a\U{E9}";
    ByteLenAppend(a + e, e);
    assert a + e + e == "a\U{E9}\U{E9}";
    ByteLenAppend(a + e + e, e + e);
    ByteLenAppend(e, e);
    assert a + e + e + (e + e) == "a\U{E9}\U{E9}\U{E9}\U{E9}";
  }

  // ===== Action button =====

  /** The button's icon: the download-in-progress icon while pending, else the given icon or the down arrow. */
  function ButtonIcon(downloadPending: Option<bool>, buttonIcon: Option<Icon>): (r: Icon)
    ensures downloadPending == Some(true) ==> r == DocumentArrowDown
    ensures downloadPending != Some(true) && buttonIcon.Some? ==> r == buttonIcon.value
    ensures downloadPending != Some(true) && buttonIcon.None? ==> r == ArrowDown
  {
    var pending := if downloadPending.Some? then downloadPending.value else false;
    if !pending then (if buttonIcon.Some? then buttonIcon.value else ArrowDown) else DocumentArrowDown
  }

  /** Whether the button shows: the explicit switch when given, else whether the card sits among attachments, else not. */
  function WithDownloadButton(withDownloadButton: Option<bool>, isFromAttachments: Option<bool>): (r: bool)
    ensures withDownloadButton.Some? ==> r == withDownloadButton.value
    ensures withDownloadButton.None? ==> (r <==> isFromAttachments == Some(true))
  {
    if withDownloadButton.Some? then withDownloadButton.value
    else if isFromAttachments.Some? then isFromAttachments.value
    else false
  }

  // ===== Upload progress =====

  /** The backend's progress report of a transfer (`Progression`), names and errors dropped. */
  datatype Progression =
    | CurrentProgress(current: nat, total: Option<nat>)
    | ProgressComplete(total: Option<nat>)
    | ProgressFailed

  /** The width of the progress bar in percent and the text that stands in for an unknown size. */
  datatype ProgressView = ProgressView(percent: nat, pendingText: string)

  /** The percentage of `current` out of `size` bytes, rounded down; 0 until both are positive. */
  function Percent(current: nat, size: nat): (p: nat)
    ensures current == 0 || size == 0 ==> p == 0
    ensures 0 < size && current <= size ==> p <= 100
    ensures 0 < size && current == size ==> p == 100
  {
    if current > 0 && size > 0 then
      PercentBounded(current, size);
      current * 100 / size
    else 0
  }

  /** The bar's width is `current * 100 / size` rounded down: the largest p with p * size <= current * 100. */
  lemma {:induction false} PercentIsFloor(current: nat, size: nat)
    requires 0 < size
    ensures var p := Percent(current, size);
            p * size <= current * 100 < (p + 1) * size
  {
    if current > 0 {
      FloorDivision(current * 100, size);
    }
  }

  /** `a / d` is the largest multiple count of `d` that fits in `a`. */
  lemma {:induction false} FloorDivision(a: nat, d: nat)
    requires 0 < d
    ensures (a / d) * d <= a < (a / d + 1) * d
  {
    assert a == (a / d) * d + a % d;
    assert (a / d + 1) * d == (a / d) * d + d;
  }

  /** `a / d` is monotone in `a`. */
  lemma {:induction false} DivMonotone(a: nat, b: nat, d: nat)
    requires a <= b && 0 < d
    ensures a / d <= b / d
  {
    var qa, ra := a / d, a % d;
    var qb, rb := b / d, b % d;
    assert a == qa * d + ra && b == qb * d + rb;
    if qa > qb {
      assert qa >= qb + 1;
      assert qa * d >= (qb + 1) * d by {
        MulMonotone(qb + 1, qa, d);
      }
    }
  }

  lemma {:induction false} MulMonotone(x: nat, y: nat, d: nat)
    requires x <= y
    ensures x * d <= y * d
  {
  }

  lemma {:induction false} PercentBounded(current: nat, size: nat)
    requires 0 < size
    ensures current <= size ==> current * 100 / size <= 100
    ensures current * 100 / size == 100 <== current == size
  {
    if current <= size {
      MulMonotone(current, size, 100);
      DivMonotone(current * 100, size * 100, size);
      assert size * 100 == 100 * size;
      assert (100 * size) / size == 100;
    }
  }

  /** More bytes transferred never shrink the bar. */
  lemma {:induction false} PercentMonotone(c1: nat, c2: nat, size: nat)
    requires c1 <= c2
    ensures Percent(c1, size) <= Percent(c2, size)
  {
    if c1 > 0 && size > 0 {
      MulMonotone(c1, c2, 100);
      DivMonotone(c1 * 100, c2 * 100, size);
    }
  }

  /**
   * The bar and its text: a transfer in progress with a known total shows
   * the percentage and the formatted total; with no total, nothing. A
   * finished one is full and shows the formatted total when known. A failed
   * one is empty and reads "Failed". No transfer shows nothing.
   */
  function UploadProgress(progress: Option<Progression>, formatSize: nat -> string): (r: ProgressView)
    ensures progress.None? ==> r == ProgressView(0, "")
    ensures progress == Some(ProgressFailed) ==> r == ProgressView(0, "Failed")
    ensures progress.Some? && progress.value.ProgressComplete? ==> r.percent == 100
    ensures progress.Some? && !progress.value.ProgressFailed? ==>
              r.pendingText == if progress.value.total.Some? then formatSize(progress.value.total.value) else ""
    ensures progress.Some? && progress.value.CurrentProgress? ==>
              && (progress.value.total.None? ==> r.percent == 0)
              && (progress.value.total.Some? && progress.value.current <= progress.value.total.value ==> r.percent <= 100)
              && (progress.value.total.Some? ==> r.percent == Percent(progress.value.current, progress.value.total.value))
  {
    match progress
    case None => ProgressView(0, "")
    case Some(CurrentProgress(current, total)) =>
      if total.Some? then ProgressView(Percent(current, total.value), formatSize(total.value))
      else ProgressView(0, "")
    case Some(ProgressComplete(total)) =>
      ProgressView(100, if total.Some? then formatSize(total.value) else "")
    case Some(ProgressFailed) => ProgressView(0, "Failed")
  }

  // ===== Description =====

  /**
   * The line under the file name: "kind - size" when both are known, the
   * size alone without a kind; with no size, the transfer's text when it
   * has one, else the kind, else nothing.
   */
  function FileDescription(filesize: Option<nat>, kind: Option<string>, pendingText: string, formatSize: nat -> string): (r: string)
    ensures filesize.Some? && kind.Some? ==> r == kind.value + " - " + formatSize(filesize.value)
    ensures filesize.Some? && kind.None? ==> r == formatSize(filesize.value)
    ensures filesize.None? && pendingText != "" ==> r == pendingText
    ensures filesize.None? && pendingText == "" ==> r == if kind.Some? then kind.value else ""
  {
    match filesize
    case Some(size) =>
      var sizeText := formatSize(size);
      if kind.Some? then kind.value + " - " + sizeText else sizeText
    case None =>
      if pendingText == "" then (if kind.Some? then kind.value else "") else pendingText
  }

  /** A card of unknown size whose upload failed says "Failed", whatever its kind. */
  lemma {:induction false} FailedUploadDescribed(kind: Option<string>, formatSize: nat -> string)
    ensures FileDescription(None, kind, UploadProgress(Some(ProgressFailed), formatSize).pendingText, formatSize) == "Failed"
  {
  }

  // ===== Image test =====

  /** The text after the last '.', or all of it when there is none (`split('.').last()`). */
  function LastSegment(s: string): (r: string)
    ensures forall i :: 0 <= i < |r| ==> r[i] != '.'
    ensures |r| <= |s| && r == s[|s| - |r|..]
    ensures |r| < |s| ==> s[|s| - |r| - 1] == '.'
  {
    if s == [] then []
    else if s[|s| - 1] == '.' then []
    else
      var rest := LastSegment(s[..|s| - 1]);
      assert s[..|s| - 1][|s| - 1 - |rest|..] + [s[|s| - 1]] == s[|s| - |rest| - 1..];
      rest + [s[|s| - 1]]
  }

  /** `s` ends with `ext`, which is either all of `s` or follows a '.'. */
  predicate DotSuffix(s: string, ext: string)
  {
    |ext| <= |s| && s[|s| - |ext|..] == ext && (|ext| == |s| || s[|s| - |ext| - 1] == '.')
  }

  /** A dot-free `ext` that ends `s` after a dot (or is all of it) is the last segment of `s`. */
  lemma {:induction false} DotSuffixIsLastSegment(s: string, ext: string)
    requires '.' !in ext
    requires DotSuffix(s, ext)
    ensures LastSegment(s) == ext
  {
    var r := LastSegment(s);
    if |r| < |ext| {
      assert false;
    } else if |r| > |ext| {
      assert false;
    }
  }

  /**
   * `is_image`: the last dot-separated part of the name is exactly "png",
   * "jpg", "jpeg" or "svg"; that is, the name ends with one of them, either
   * as the whole name or after a '.'.
   */
  function IsImage(filename: string): (r: bool)
    ensures r <==> DotSuffix(filename, "png") || DotSuffix(filename, "jpg") ||
                   DotSuffix(filename, "jpeg") || DotSuffix(filename, "svg")
  {
    ImageSuffixes(filename);
    LastSegment(filename) in {"png", "jpg", "jpeg", "svg"}
  }

  /** The last segment is one of the four exactly when the name ends with one of them after a dot. */
  lemma {:induction false} ImageSuffixes(filename: string)
    ensures LastSegment(filename) in {"png", "jpg", "jpeg", "svg"} <==>
              DotSuffix(filename, "png") || DotSuffix(filename, "jpg") ||
              DotSuffix(filename, "jpeg") || DotSuffix(filename, "svg")
  {
    SegmentIsSuffix(filename, "png");
    SegmentIsSuffix(filename, "jpg");
    SegmentIsSuffix(filename, "jpeg");
    SegmentIsSuffix(filename, "svg");
  }

  /** For a dot-free `ext`, the last segment is `ext` exactly when the name ends with it after a dot. */
  lemma {:induction false} SegmentIsSuffix(filename: string, ext: string)
    requires '.' !in ext
    ensures LastSegment(filename) == ext <==> DotSuffix(filename, ext)
  {
    assert DotSuffix(filename, LastSegment(filename));
    if DotSuffix(filename, ext) { DotSuffixIsLastSegment(filename, ext); }
  }

  /** The last part of `base.ext` is `ext` when `ext` has no dot. */
  lemma {:induction false} LastSegmentAfterDot(base: string, ext: string)
    requires forall i :: 0 <= i < |ext| ==> ext[i] != '.'
    ensures LastSegment(base + "." + ext) == ext
  {
    var s := base + "." + ext;
    var r := LastSegment(s);
    assert s[|base|] == '.';
    assert s[|s| - |ext|..] == ext;
  }

  /** A name `base.ext` with a dot-free extension is an image exactly when the extension is one of the four. */
  lemma {:induction false} IsImageByExtension(base: string, ext: string)
    requires forall i :: 0 <= i < |ext| ==> ext[i] != '.'
    ensures IsImage(base + "." + ext) <==> ext in {"png", "jpg", "jpeg", "svg"}
  {
    LastSegmentAfterDot(base, ext);
  }
}
