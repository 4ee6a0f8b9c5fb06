/** The string checks of app/utils/validators.py: the session-id shape, the
    upload-name check and the upload-name cleaner. Characters are compared as
    ASCII; Python's Unicode case mapping is reduced to the ASCII letters. */
module Validators {

  // ---------------------------------------------------------------------------
  // Characters

  predicate HexDigit(c: char) {
    '0' <= c <= '9' || 'a' <= c <= 'f' || 'A' <= c <= 'F'
  }

  /** Every character of `g` is a hexadecimal digit, in either case. */
  predicate AllHex(g: string) {
    forall i :: 0 <= i < |g| ==> HexDigit(g[i])
  }

  /** `str.lower()` on one character, ASCII letters only. */
  function LowerChar(c: char): char {
    if 'A' <= c <= 'Z' then (c as int + 32) as char else c
  }

  function Lower(s: string): string {
    seq(|s|, i requires 0 <= i < |s| => LowerChar(s[i]))
  }

  // ---------------------------------------------------------------------------
  // `validate_session_id`

  /** The pattern `^[0-9a-f]{8}-[0-9a-f]{4}-[0-9a-f]{4}-[0-9a-f]{4}-[0-9a-f]{12}$`
      under `re.match` with `re.IGNORECASE`. Python's `$` also matches just
      before a newline that ends the string, so one trailing '\n' is accepted. */
  function ValidateSessionId(s: string): bool {
    var u := if |s| == 37 && s[36] == '\n' then s[..36] else s;
    && |u| == 36
    && AllHex(u[..8]) && u[8] == '-'
    && AllHex(u[9..13]) && u[13] == '-'
    && AllHex(u[14..18]) && u[18] == '-'
    && AllHex(u[19..23]) && u[23] == '-'
    && AllHex(u[24..])
  }

  /** Five hexadecimal groups joined by '-'. */
  function JoinGroups(g1: string, g2: string, g3: string, g4: string, g5: string): string {
    g1 + "-" + g2 + "-" + g3 + "-" + g4 + "-" + g5
  }

  /** Groups of 8, 4, 4, 4 and 12 hexadecimal digits (either case) joined by
      '-', with nothing or one '\n' after them, form a valid session id; this
      covers every `str(uuid.uuid4())`. */
  lemma GroupsAreSessionId(g1: string, g2: string, g3: string, g4: string, g5: string, tail: string)
    requires |g1| == 8 && |g2| == 4 && |g3| == 4 && |g4| == 4 && |g5| == 12
    requires AllHex(g1) && AllHex(g2) && AllHex(g3) && AllHex(g4) && AllHex(g5)
    requires tail == "" || tail == "\n"
    ensures ValidateSessionId(JoinGroups(g1, g2, g3, g4, g5) + tail)
  {
    var u := JoinGroups(g1, g2, g3, g4, g5);
    var s := u + tail;
    assert |u| == 36;
    assert (if |s| == 37 && s[36] == '\n' then s[..36] else s) == u;
    assert u[..8] == g1 && u[9..13] == g2 && u[14..18] == g3 && u[19..23] == g4 && u[24..] == g5;
  }

  /** Conversely, a valid session id is such groups joined by '-' and followed
      by nothing or one '\n'; no other string is accepted. */
  lemma SessionIdIsGroups(s: string)
    requires ValidateSessionId(s)
    ensures var u := s[..36];
      && (s == u || s == u + "\n")
      && u == JoinGroups(u[..8], u[9..13], u[14..18], u[19..23], u[24..])
      && AllHex(u[..8]) && AllHex(u[9..13]) && AllHex(u[14..18]) && AllHex(u[19..23]) && AllHex(u[24..])
      && |u[24..]| == 12
  {
    var u := s[..36];
    assert u == if |s| == 37 && s[36] == '\n' then s[..36] else s;
    assert u == u[..8] + "-" + u[9..13] + "-" + u[14..18] + "-" + u[19..23] + "-" + u[24..];
    if |s| == 37 {
      assert s == u + "\n";
    }
  }

  /** The match ignores case: upper- and lower-case digits are interchangeable. */
  lemma AllHexIgnoresCase(g: string)
    ensures AllHex(Lower(g)) == AllHex(g)
  {
    var l := Lower(g);
    if AllHex(l) {
      forall i | 0 <= i < |g| ensures HexDigit(g[i]) {
        assert HexDigit(l[i]);
      }
    }
  }

  lemma SessionIdIgnoresCase(s: string)
    ensures ValidateSessionId(Lower(s)) == ValidateSessionId(s)
  {
    var l := Lower(s);
    if |s| == 37 && s[36] == '\n' {
      assert Lower(s[..36]) == l[..36];
      SessionIdIgnoresCaseOf36(s[..36]);
    } else {
      SessionIdIgnoresCaseOf36(s);
    }
  }

  /** Case does not matter for the part the pattern matches before `$`. */
  lemma SessionIdIgnoresCaseOf36(u: string)
    ensures var l := Lower(u);
      && (|l| == 36 ==> (l[8] == '-' <==> u[8] == '-') && (l[13] == '-' <==> u[13] == '-')
                        && (l[18] == '-' <==> u[18] == '-') && (l[23] == '-' <==> u[23] == '-'))
      && (|u| == 36 ==> && AllHex(l[..8]) == AllHex(u[..8]) && AllHex(l[9..13]) == AllHex(u[9..13])
                        && AllHex(l[14..18]) == AllHex(u[14..18]) && AllHex(l[19..23]) == AllHex(u[19..23])
                        && AllHex(l[24..]) == AllHex(u[24..]))
  {
    var l := Lower(u);
    if |u| == 36 {
      assert l[..8] == Lower(u[..8]) && l[9..13] == Lower(u[9..13]) && l[14..18] == Lower(u[14..18]);
      assert l[19..23] == Lower(u[19..23]) && l[24..] == Lower(u[24..]);
      AllHexIgnoresCase(u[..8]);
      AllHexIgnoresCase(u[9..13]);
      AllHexIgnoresCase(u[14..18]);
      AllHexIgnoresCase(u[19..23]);
      AllHexIgnoresCase(u[24..]);
    }
  }

  // ---------------------------------------------------------------------------
  // `validate_filename`

  /** `suffix` ends `s` (`str.endswith`). */
  predicate EndsWith(s: string, suffix: string) {
    |suffix| <= |s| && s[|s| - |suffix|..] == suffix
  }

  /** '..' occurs in `s`. */
  predicate HasDotDot(s: string) {
    exists i :: 0 <= i < |s| - 1 && s[i] == '.' && s[i + 1] == '.'
  }

  /** The accepted extensions, compared with the lower-cased name. */
  predicate HasImageExtension(s: string) {
    var l := Lower(s);
    EndsWith(l, ".jpg") || EndsWith(l, ".jpeg") || EndsWith(l, ".png") || EndsWith(l, ".webp")
  }

  /** `validate_filename`: not empty, no path traversal or separator, an image
      extension in any case. */
  function ValidateFilename(name: string): (ok: bool)
    ensures ok ==> name != "" && !HasDotDot(name) && '/' !in name && '\\' !in name
  {
    if name == "" then false
    else if HasDotDot(name) || '/' in name || '\\' in name then false
    else HasImageExtension(name)
  }

  /** The position of the last `c` among the first `n` characters of `s`, or
      -1 when there is none. */
  function LastIndexBelow(s: string, c: char, n: nat): (k: int)
    requires n <= |s|
    ensures -1 <= k < n
    ensures k >= 0 ==> s[k] == c
    ensures forall j :: k < j < n ==> s[j] != c
  {
    if n == 0 then -1
    else if s[n - 1] == c then n - 1
    else LastIndexBelow(s, c, n - 1)
  }

  /** The position of the last `c` in `s`, or -1 when there is none. */
  function LastIndex(s: string, c: char): (k: int)
    ensures -1 <= k < |s|
    ensures k >= 0 ==> s[k] == c
    ensures forall j :: k < j < |s| ==> s[j] != c
  {
    LastIndexBelow(s, c, |s|)
  }

  /** The text after the last `c` (`s.split(c)[-1]`), all of `s` when `c`
      does not occur. */
  function AfterLast(s: string, c: char): string {
    s[LastIndex(s, c) + 1..]
  }

  /** The extension test is the natural one: there is a '.', and the text after
      the last '.', lower-cased, is jpg, jpeg, png or webp. */
  lemma ExtensionIsAfterLastDot(s: string)
    ensures HasImageExtension(s) <==>
      '.' in s && Lower(AfterLast(s, '.')) in {"jpg", "jpeg", "png", "webp"}
  {
    DotExtension(s, ".jpg");
    DotExtension(s, ".jpeg");
    DotExtension(s, ".png");
    DotExtension(s, ".webp");
    assert ".jpg"[1..] == "jpg" && ".jpeg"[1..] == "jpeg";
    assert ".png"[1..] == "png" && ".webp"[1..] == "webp";
  }

  /** The upload check, restated by the extension after the last '.': a name
      is accepted exactly when it is not empty, holds no '..', '/' or '\\', and
      its last '.' is followed by jpg, jpeg, png or webp in any case. */
  lemma FilenameCheckIsExact(name: string)
    ensures ValidateFilename(name) <==>
      && name != "" && !HasDotDot(name) && '/' !in name && '\\' !in name
      && '.' in name && Lower(AfterLast(name, '.')) in {"jpg", "jpeg", "png", "webp"}
  {
    ExtensionIsAfterLastDot(name);
  }

  /** `s` ends in the extension `ext`, a '.' followed by no other '.', ignoring
      case, exactly when the text after its last '.' is the rest of `ext`. */
  lemma DotExtension(s: string, ext: string)
    requires |ext| > 0 && ext[0] == '.'
    requires forall j :: 0 < j < |ext| ==> ext[j] != '.'
    ensures EndsWith(Lower(s), ext) <==> '.' in s && Lower(AfterLast(s, '.')) == ext[1..]
  {
    var l := Lower(s);
    var k := LastIndex(s, '.');
    LowerSuffix(s, k + 1);
    if EndsWith(l, ext) {
      ExtensionAtEnd(s, ext);
      assert l[k + 1..] == ext[1..];
    }
    if '.' in s && Lower(AfterLast(s, '.')) == ext[1..] {
      assert l[k] == '.';
      assert l[k..] == ext;
    }
  }

  /** Lower-casing commutes with dropping a prefix. */
  lemma LowerSuffix(s: string, k: nat)
    requires k <= |s|
    ensures Lower(s[k..]) == Lower(s)[k..]
  {
    assert forall i :: 0 <= i < |s| - k ==> Lower(s[k..])[i] == LowerChar(s[k + i]);
  }

  /** When the lower-cased `s` ends in `ext`, its last '.' is the one that
      starts `ext`. */
  lemma ExtensionAtEnd(s: string, ext: string)
    requires |ext| > 0 && ext[0] == '.'
    requires forall j :: 0 < j < |ext| ==> ext[j] != '.'
    requires EndsWith(Lower(s), ext)
    ensures LastIndex(s, '.') == |s| - |ext|
  {
    var l := Lower(s);
    var p := |s| - |ext|;
    assert l[p] == ext[0];
    forall j | p < j < |s| ensures s[j] != '.' {
      assert l[j] == ext[j - p];
    }
  }

  // ---------------------------------------------------------------------------
  // `sanitize_filename`

  /** The characters `[a-zA-Z0-9._-]` the cleaner keeps. */
  predicate Allowed(c: char) {
    'a' <= c <= 'z' || 'A' <= c <= 'Z' || '0' <= c <= '9' || c == '.' || c == '_' || c == '-'
  }

  /** Every character of `s` is one the cleaner keeps. */
  predicate AllAllowed(s: string) {
    forall i :: 0 <= i < |s| ==> Allowed(s[i])
  }

  /** `re.sub(r'[^a-zA-Z0-9._-]', '', s)`: the allowed characters of `s`, in order. */
  function KeepAllowed(s: string): (r: string)
    ensures AllAllowed(r)
    ensures |r| <= |s|
  {
    if s == [] then []
    else if Allowed(s[0]) then [s[0]] + KeepAllowed(s[1..])
    else KeepAllowed(s[1..])
  }

  /** `sanitize_filename`: the last path component by '/' and then by '\\',
      stripped to the allowed characters, or "image.jpg" when nothing is left. */
  function SanitizeFilename(name: string): (r: string)
    ensures r != ""
    ensures AllAllowed(r)
    ensures '/' !in r && '\\' !in r
  {
    var kept := KeepAllowed(AfterLast(AfterLast(name, '/'), '\\'));
    if kept == "" then "image.jpg" else kept
  }

  /** A string of allowed characters is kept whole, and only such a string is. */
  lemma {:induction false} KeepAllowedFixes(s: string)
    ensures KeepAllowed(s) == s <==> AllAllowed(s)
  {
    if s != [] {
      KeepAllowedFixes(s[1..]);
      if !Allowed(s[0]) {
        assert |KeepAllowed(s)| < |s|;
      } else {
        assert forall i :: 1 <= i < |s| ==> s[i] == s[1..][i - 1];
      }
    }
  }

  /** A string with no allowed character is removed entirely. */
  lemma {:induction false} KeepAllowedDrops(s: string)
    requires forall i :: 0 <= i < |s| ==> !Allowed(s[i])
    ensures KeepAllowed(s) == []
  {
    if s != [] {
      assert forall i :: 0 <= i < |s[1..]| ==> s[1..][i] == s[i + 1];
      KeepAllowedDrops(s[1..]);
    }
  }

  /** The filter works character by character, so it distributes over
      concatenation. */
  lemma {:induction false} KeepAllowedConcat(a: string, b: string)
    ensures KeepAllowed(a + b) == KeepAllowed(a) + KeepAllowed(b)
  {
    if a == [] {
      assert a + b == b;
    } else {
      assert (a + b)[0] == a[0];
      assert (a + b)[1..] == a[1..] + b;
      KeepAllowedConcat(a[1..], b);
    }
  }

  /** Cleaning a cleaned name changes nothing. */
  lemma SanitizeIdempotent(name: string)
    ensures SanitizeFilename(SanitizeFilename(name)) == SanitizeFilename(name)
  {
    CleanNameUnchanged(SanitizeFilename(name));
  }

  /** Without `c`, the text after the last `c` is the whole string. */
  lemma NoSeparatorKeepsAll(s: string, c: char)
    requires c !in s
    ensures AfterLast(s, c) == s
  {
  }

  /** If `s[p]` is `c` and no later character is, the text after the last `c`
      is what follows `p`. */
  lemma LastAt(s: string, c: char, p: nat)
    requires p < |s| && s[p] == c
    requires forall j :: p < j < |s| ==> s[j] != c
    ensures AfterLast(s, c) == s[p + 1..]
  {
  }

  /** A non-empty name made only of allowed characters (hence holding no path
      separator) passes the cleaner unchanged, as "test.jpg" does. */
  lemma CleanNameUnchanged(name: string)
    requires AllAllowed(name) && name != ""
    ensures SanitizeFilename(name) == name
  {
    NoSeparatorKeepsAll(name, '/');
    NoSeparatorKeepsAll(name, '\\');
    KeepAllowedFixes(name);
  }

  /** Of a clean last component, the cleaner keeps exactly that component and
      drops every directory before it: "../../../etc/passwd" becomes "passwd"
      (tests/test_image_processor.py:28 expects "etcpasswd", which the code does
      not produce). */
  lemma SanitizeKeepsLastComponent(dir: string, base: string)
    requires AllAllowed(base) && base != ""
    ensures SanitizeFilename(dir + "/" + base) == base
  {
    var s := dir + "/" + base;
    var p := |dir|;
    assert s[p] == '/';
    assert s[p + 1..] == base;
    forall j | p < j < |s| ensures s[j] != '/' {
      assert s[j] == base[j - p - 1];
    }
    LastAt(s, '/', p);
    assert AfterLast(s, '/') == base;
    NoSeparatorKeepsAll(base, '\\');
    KeepAllowedFixes(base);
  }

  /** Every suffix of a string without allowed characters has none either. */
  lemma NoneAllowedSuffix(s: string, k: nat)
    requires k <= |s|
    requires forall i :: 0 <= i < |s| ==> !Allowed(s[i])
    ensures forall i :: 0 <= i < |s[k..]| ==> !Allowed(s[k..][i])
  {
    forall i | 0 <= i < |s[k..]| ensures !Allowed(s[k..][i]) {
      assert s[k..][i] == s[k + i];
    }
  }

  /** A name with no allowed character at all is replaced by "image.jpg". */
  lemma NothingAllowedFallsBack(name: string)
    requires forall i :: 0 <= i < |name| ==> !Allowed(name[i])
    ensures SanitizeFilename(name) == "image.jpg"
  {
    var a := AfterLast(name, '/');
    NoneAllowedSuffix(name, LastIndex(name, '/') + 1);
    var b := AfterLast(a, '\\');
    NoneAllowedSuffix(a, LastIndex(a, '\\') + 1);
    KeepAllowedDrops(b);
  }

  // ---------------------------------------------------------------------------
  // The expectations of tests/test_image_processor.py

  lemma FilenamesAccepted(a: string, b: string, c: string)
    requires a == "test.jpg" && b == "test.png" && c == "PHOTO.JPEG"
    ensures ValidateFilename(a) && ValidateFilename(b) && ValidateFilename(c)
  {
    assert Lower(a)[4..] == ".jpg";
    assert Lower(b)[4..] == ".png";
    assert Lower(c)[5..] == ".jpeg";
  }

  lemma FilenamesRejected(a: string, b: string, c: string)
    requires a == "../etc/passwd" && b == "test.exe" && c == ""
    ensures !ValidateFilename(a) && !ValidateFilename(b) && !ValidateFilename(c)
  {
    assert a[2] == '/';
    var l := Lower(b);
    assert l[5] == 'e' && l[4] == '.' && l[3] == 't';
  }

  /** Runs of kept characters separated by runs of dropped ones that hold no
      path separator come out joined; the test's "test image!@#.jpg" becoming
      "testimage.jpg" is the case "test", " ", "image", "!@#", ".jpg". */
  lemma SanitizeDropsUnsafeCharacters(a: string, b: string, c: string, d: string, e: string)
    requires AllAllowed(a) && AllAllowed(c) && AllAllowed(e) && a + c + e != ""
    requires forall i :: 0 <= i < |b| ==> !Allowed(b[i]) && b[i] != '/' && b[i] != '\\'
    requires forall i :: 0 <= i < |d| ==> !Allowed(d[i]) && d[i] != '/' && d[i] != '\\'
    ensures SanitizeFilename(a + b + c + d + e) == a + c + e
  {
    var name := a + b + c + d + e;
    forall i | 0 <= i < |name| ensures name[i] != '/' && name[i] != '\\' {
      if i < |a| {
        assert name[i] == a[i];
      } else if i < |a| + |b| {
        assert name[i] == b[i - |a|];
      } else if i < |a| + |b| + |c| {
        assert name[i] == c[i - |a| - |b|];
      } else if i < |a| + |b| + |c| + |d| {
        assert name[i] == d[i - |a| - |b| - |c|];
      } else {
        assert name[i] == e[i - |a| - |b| - |c| - |d|];
      }
    }
    NoSeparatorKeepsAll(name, '/');
    NoSeparatorKeepsAll(name, '\\');
    KeepAllowedConcat(a + b + c + d, e);
    KeepAllowedConcat(a + b + c, d);
    KeepAllowedConcat(a + b, c);
    KeepAllowedConcat(a, b);
    KeepAllowedFixes(a);
    KeepAllowedFixes(c);
    KeepAllowedFixes(e);
    KeepAllowedDrops(b);
    KeepAllowedDrops(d);
    assert KeepAllowed(name) == a + [] + c + [] + e;
    assert a + [] == a;
    assert a + c + [] == a + c;
    assert AfterLast(AfterLast(name, '/'), '\\') == name;
  }

  /** "550e8400-e29b-41d4-a716-446655440000", in lower and upper case and with
      one trailing '\n', is a valid session id. */
  lemma SessionIdsAccepted(lower: string, upper: string)
    requires lower == JoinGroups("550e8400", "e29b", "41d4", "a716", "446655440000")
    requires upper == JoinGroups("550E8400", "E29B", "41D4", "A716", "446655440000")
    ensures ValidateSessionId(lower) && ValidateSessionId(upper) && ValidateSessionId(lower + "\n")
  {
    GroupsAreSessionId("550e8400", "e29b", "41d4", "a716", "446655440000", "");
    GroupsAreSessionId("550e8400", "e29b", "41d4", "a716", "446655440000", "\n");
    GroupsAreSessionId("550E8400", "E29B", "41D4", "A716", "446655440000", "");
    assert lower + "" == lower && upper + "" == upper;
  }

  lemma SessionIdsRejected(twoNewlines: string, noHyphens: string, word: string)
    requires twoNewlines == "550e8400-e29b-41d4-a716-446655440000\n\n"
    requires noHyphens == "550e8400e29b41d4a716446655440000"
    requires word == "not-a-uuid"
    ensures !ValidateSessionId(twoNewlines) && !ValidateSessionId(noHyphens) && !ValidateSessionId(word)
  {
  }
}
