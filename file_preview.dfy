/**
 * The file preview window: the class of a file by its extension, whether
 * the thumbnail is shown, and the stylesheet with the background rule the
 * window appends to the saved theme. The extension of a file name
 * (`get_file_extension`) and the three extension lists are parameters; the
 * theme is the one the saved state holds.
 */
module FilePreview {
  import opened Wrappers
  import opened Text

  datatype FileFormat = Video | Image | Document | Other

  /**
   * `get_file_format`: Image when the extension is an image extension, else
   * Video when it is a video one, else Document when it is a document one,
   * else Other; an extension in several lists takes the earliest class.
   */
  function GetFileFormat(extension: string, imageExtensions: seq<string>, videoExtensions: seq<string>, docExtensions: seq<string>): (r: FileFormat)
    ensures r == Image <==> extension in imageExtensions
    ensures r == Video <==> extension !in imageExtensions && extension in videoExtensions
    ensures r == Document <==> extension !in imageExtensions && extension !in videoExtensions && extension in docExtensions
    ensures r == Other <==> extension !in imageExtensions + videoExtensions + docExtensions
  {
    if exists f :: f in imageExtensions && f == extension then Image
    else if exists f :: f in videoExtensions && f == extension then Video
    else if exists f :: f in docExtensions && f == extension then Document
    else Other
  }

  /** The thumbnail is shown for a file of a known class that has one. */
  predicate ShowThumbnail(format: FileFormat, thumbnail: string)
  {
    format != Other && thumbnail != ""
  }

  /** A shown thumbnail belongs to a file whose extension is in one of the lists. */
  lemma {:induction false} ThumbnailNeedsKnownExtension(extension: string, imageExtensions: seq<string>, videoExtensions: seq<string>, docExtensions: seq<string>, thumbnail: string)
    ensures ShowThumbnail(GetFileFormat(extension, imageExtensions, videoExtensions, docExtensions), thumbnail) <==>
              extension in imageExtensions + videoExtensions + docExtensions && thumbnail != ""
  {
  }

  // ===== Background rule =====

  const BACKGROUND_VAR: string := "background: var(--background);"
  const BACKGROUND_BLACK: string := "background: #000000;"

  const RULE_OPEN: string := "\n             html, body {\n                 "
  const RULE_CLOSE: string := "\n             }\n        "

  /** The block appended after the theme, with the window's indentation. */
  function BodyRule(backgroundStyle: string): string
  {
    RULE_OPEN + backgroundStyle + RULE_CLOSE
  }

  /** No character of `s` is `c`. */
  predicate NoChar(s: string, c: char)
  {
    forall j :: 0 <= j < |s| ==> s[j] != c
  }

  lemma {:induction false} NoCharAppend(a: string, b: string, c: char)
    requires NoChar(a, c) && NoChar(b, c)
    ensures NoChar(a + b, c)
  {
    forall j | 0 <= j < |a + b| ensures (a + b)[j] != c {
      if j >= |a| { assert (a + b)[j] == b[j - |a|]; }
    }
  }

  /**
   * `update_theme_colors`: the theme's styles (nothing without a theme) with
   * a rule giving the page the theme's background variable when the styles
   * mention "--background", and black otherwise.
   */
  function UpdateThemeColors(theme: Option<string>): (r: string)
    ensures var css := if theme.Some? then theme.value else "";
            && css <= r
            && r[|css|..] == BodyRule(if Contains(css, "--background") then BACKGROUND_VAR else BACKGROUND_BLACK)
  {
    var cssStyle := if theme.Some? then theme.value else "";
    var backgroundStyle := if Contains(cssStyle, "--background") then BACKGROUND_VAR else BACKGROUND_BLACK;
    cssStyle + BodyRule(backgroundStyle)
  }

  /**
   * An occurrence of `sub` in `a + b` lies inside `a` when `sub` cannot start
   * inside `b` and cannot cover `b`'s first character.
   */
  lemma {:induction false} ContainsAppendLeft(a: string, b: string, sub: string)
    requires b != [] && sub != []
    requires forall j :: 0 <= j < |sub| ==> sub[j] != b[0]
    requires NoChar(b, sub[0])
    ensures Contains(a + b, sub) ==> Contains(a, sub)
  {
    if Contains(a + b, sub) {
      var i: nat :| OccursAt(a + b, sub, i);
      if i >= |a| {
        OccurrenceStartsAt(a + b, sub, i);
        assert false;
      } else if i + |sub| > |a| {
        OccurrenceCovers(a, b, sub, i);
        assert false;
      } else {
        assert (a + b)[i..i + |sub|] == a[i..i + |sub|];
        assert OccursAt(a, sub, i);
      }
    }
  }

  /** An occurrence begins with the first character of `sub`. */
  lemma {:induction false} OccurrenceStartsAt(s: string, sub: string, i: nat)
    requires sub != [] && OccursAt(s, sub, i)
    ensures s[i] == sub[0]
  {
    assert s[i..i + |sub|][0] == sub[0];
  }

  /** An occurrence in `a + b` that starts in `a` and ends in `b` covers `b`'s first character. */
  lemma {:induction false} OccurrenceCovers(a: string, b: string, sub: string, i: nat)
    requires OccursAt(a + b, sub, i) && i < |a| < i + |sub|
    ensures sub[|a| - i] == b[0]
  {
    assert (a + b)[i..i + |sub|][|a| - i] == (a + b)[|a|];
  }

  /** An occurrence in `a` is one in `a + b`. */
  lemma {:induction false} ContainsAppendKeeps(a: string, b: string, sub: string)
    ensures Contains(a, sub) ==> Contains(a + b, sub)
  {
    if Contains(a, sub) {
      var i: nat :| OccursAt(a, sub, i);
      assert (a + b)[i..i + |sub|] == a[i..i + |sub|];
      assert OccursAt(a + b, sub, i);
    }
  }

  /** After the variable's rule, "var(--background)" occurs. */
  lemma {:induction false} VarRuleMentionsVariable(css: string)
    ensures Contains(css + BodyRule(BACKGROUND_VAR), "var(--background)")
  {
    var sub := "var(--background)";
    var pre := RULE_OPEN + "background: ";
    var rule := pre + sub + ";" + RULE_CLOSE;
    assert BACKGROUND_VAR == "background: " + sub + ";";
    assert BodyRule(BACKGROUND_VAR) == rule;
    assert (css + rule)[|css| + |pre|..|css| + |pre| + |sub|] == sub;
    assert OccursAt(css + rule, sub, |css| + |pre|);
  }

  /** After the black rule, "var(--background)" occurs only where the styles already had "--background". */
  lemma {:induction false} BlackRuleAddsNoVariable(css: string)
    requires !Contains(css, "--background")
    ensures !Contains(css + BodyRule(BACKGROUND_BLACK), "var(--background)")
  {
    var sub := "var(--background)";
    var rule := BodyRule(BACKGROUND_BLACK);
    assert NoChar(RULE_OPEN, 'v') && NoChar(BACKGROUND_BLACK, 'v') && NoChar(RULE_CLOSE, 'v');
    NoCharAppend(RULE_OPEN, BACKGROUND_BLACK, 'v');
    NoCharAppend(RULE_OPEN + BACKGROUND_BLACK, RULE_CLOSE, 'v');
    assert rule[0] == RULE_OPEN[0] == '\n';
    assert forall j :: 0 <= j < |sub| ==> sub[j] != '\n';
    ContainsAppendLeft(css, rule, sub);
    VariableMentionsName(css);
  }

  /** Styles that mention "var(--background)" mention "--background". */
  lemma {:induction false} VariableMentionsName(css: string)
    ensures Contains(css, "var(--background)") ==> Contains(css, "--background")
  {
    var sub := "var(--background)";
    if Contains(css, sub) {
      var i: nat :| OccursAt(css, sub, i);
      var name := "--background";
      assert sub[4..16] == name;
      forall k | 0 <= k < |name|
        ensures css[i + 4..i + 16][k] == name[k]
      {
        assert css[i + 4 + k] == css[i..i + |sub|][4 + k] == sub[4 + k];
      }
      assert OccursAt(css, name, i + 4);
    }
  }

  /**
   * The stylesheet points the page at the background variable exactly when
   * the theme defines one: "var(--background)" occurs in the result iff
   * "--background" occurs in the theme's styles.
   */
  lemma {:induction false} BackgroundFollowsTheme(theme: Option<string>)
    ensures var css := if theme.Some? then theme.value else "";
            Contains(UpdateThemeColors(theme), "var(--background)") <==> Contains(css, "--background")
  {
    var css := if theme.Some? then theme.value else "";
    if Contains(css, "--background") {
      VarRuleMentionsVariable(css);
    } else {
      BlackRuleAddsNoVariable(css);
    }
  }
}
