/** The five regular expressions of the front-end (paloversion-gui.py:65-69).
    Python's `$` also matches just before one final newline, so each anchored
    pattern accepts its body followed by an optional single '\n'. */
module Patterns {
  import opened Text

  const BATCH_LOG := "PaloVersionBatch.log"
  const CONTENT_CSV := "content.csv"
  const CONTENT_PREFIX := "panupv2-all-contents-"
  const ANTIVIRUS_PREFIX := "panup-all-antivirus-"

  /** The group `(PaloVersionBatch|\d+|fe80[\w:]+)`. */
  predicate LogStem(stem: string) {
    || stem == "PaloVersionBatch"
    || (|stem| > 0 && AllDigits(stem))
    || (|stem| > 4 && stem[..4] == "fe80" &&
        forall i | 4 <= i < |stem| :: IsWordChar(stem[i]) || stem[i] == ':')
  }

  predicate LogNameBody(s: string) {
    |s| >= 4 && s[|s| - 4..] == ".log" && LogStem(s[..|s| - 4])
  }

  /** `regexlogs`: `^(PaloVersionBatch|\d+|fe80[\w:]+)\.log$`. */
  predicate IsLogName(s: string) {
    LogNameBody(s) || (|s| > 0 && s[|s| - 1] == '\n' && LogNameBody(s[..|s| - 1]))
  }

  predicate CsvNameBody(s: string) {
    |s| > 4 && s[|s| - 4..] == ".csv" && forall i | 0 <= i < |s| - 4 :: IsWordChar(s[i])
  }

  /** `regexcsv`: `^\w+\.csv$`. */
  predicate IsCsvName(s: string) {
    CsvNameBody(s) || (|s| > 0 && s[|s| - 1] == '\n' && CsvNameBody(s[..|s| - 1]))
  }

  /** The class `[0-9.a-zA-Z-]`. */
  predicate IsVersionChar(c: char) { IsDigit(c) || c == '.' || IsAsciiLetter(c) || c == '-' }

  predicate VersionBody(s: string) {
    |s| > 0 && forall i | 0 <= i < |s| :: IsVersionChar(s[i])
  }

  /** `regexver`: `^[0-9.a-zA-Z-]+$`. */
  predicate IsVersionToken(s: string) {
    VersionBody(s) || (|s| > 0 && s[|s| - 1] == '\n' && VersionBody(s[..|s| - 1]))
  }

  /** A version token never holds a double quote, so it can be quoted on a shell
      command line as it is. */
  lemma VersionTokenUnquoted(s: string)
    requires IsVersionToken(s)
    ensures '"' !in s && ' ' !in s
  {
    if VersionBody(s) {
      assert forall i | 0 <= i < |s| :: IsVersionChar(s[i]);
    } else {
      assert s == s[..|s| - 1] + [s[|s| - 1]];
    }
  }

  /** `\d*-\d` at the start of `t`, anything after: what is left to match of
      `\d+-\d+` once its first digit is consumed. */
  predicate DashAfterDigits(t: string)
    decreases |t|
  {
    |t| >= 2 && (if IsDigit(t[0]) then DashAfterDigits(t[1..]) else t[0] == '-' && IsDigit(t[1]))
  }

  /** `re.match(prefix + r'\d+-\d+', name)`: a match at the start of `name` only,
      whatever follows it (`regexcontent`, `regexantivirus`). */
  predicate IsBundleName(prefix: string, name: string) {
    && IsPrefix(prefix, name)
    && |name| > |prefix|
    && IsDigit(name[|prefix|])
    && DashAfterDigits(name[|prefix| + 1..])
  }

  /** The same pattern read as a regular expression: `prefix`, a non-empty run of
      digits up to position `i`, a dash, and at least one digit after it. */
  ghost predicate BundleNameSpec(prefix: string, name: string) {
    && IsPrefix(prefix, name)
    && exists i :: |prefix| < i < |name| - 1 && AllDigits(name[|prefix|..i]) &&
                   name[i] == '-' && IsDigit(name[i + 1])
  }

  /** Where the dash is, in a string `DashAfterDigits` accepts. */
  ghost function DashIndex(t: string): (i: nat)
    requires DashAfterDigits(t)
    ensures i < |t| - 1 && AllDigits(t[..i]) && t[i] == '-' && IsDigit(t[i + 1])
    decreases |t|
  {
    if IsDigit(t[0]) then
      var j := DashIndex(t[1..]);
      assert t[..j + 1] == [t[0]] + t[1..][..j];
      j + 1
    else 0
  }

  /** Digits up to a dash followed by a digit are accepted. */
  lemma {:induction false} DashAfterDigitsAt(t: string, i: nat)
    requires i < |t| - 1 && AllDigits(t[..i]) && t[i] == '-' && IsDigit(t[i + 1])
    ensures DashAfterDigits(t)
    decreases i
  {
    if i > 0 {
      assert t[..i][0] == t[0];
      assert t[1..][..i - 1] == t[..i][1..];
      DashAfterDigitsAt(t[1..], i - 1);
    }
  }

  lemma DashAfterDigitsSpec(t: string)
    ensures DashAfterDigits(t) <==>
            exists i :: 0 <= i < |t| - 1 && AllDigits(t[..i]) && t[i] == '-' && IsDigit(t[i + 1])
  {
    if DashAfterDigits(t) {
      var i := DashIndex(t);
    } else {
      forall i | 0 <= i < |t| - 1 && AllDigits(t[..i]) && t[i] == '-'
        ensures !IsDigit(t[i + 1])
      {
        if IsDigit(t[i + 1]) {
          DashAfterDigitsAt(t, i);
        }
      }
    }
  }

  /** A name the decision procedure accepts matches the regular expression. */
  lemma BundleNameWitness(prefix: string, name: string)
    requires IsBundleName(prefix, name)
    ensures BundleNameSpec(prefix, name)
  {
    var p := |prefix|;
    var t := name[p + 1..];
    var j := DashIndex(t);
    var i := p + 1 + j;
    assert name[p..i] == [name[p]] + t[..j];
    assert AllDigits(name[p..i]) && name[i] == '-' && IsDigit(name[i + 1]);
  }

  /** A name the regular expression matches is accepted. */
  lemma BundleNameFromSpec(prefix: string, name: string)
    requires BundleNameSpec(prefix, name)
    ensures IsBundleName(prefix, name)
  {
    var p := |prefix|;
    var i :| p < i < |name| - 1 && AllDigits(name[p..i]) && name[i] == '-' && IsDigit(name[i + 1]);
    var t := name[p + 1..];
    assert IsDigit(name[p..i][0]);
    assert t[..i - p - 1] == name[p..i][1..];
    DashAfterDigitsAt(t, i - p - 1);
  }

  /** The decision procedure agrees with the regular expression, in both directions. */
  lemma BundleNameMatchesSpec(prefix: string, name: string)
    ensures IsBundleName(prefix, name) <==> BundleNameSpec(prefix, name)
  {
    if IsBundleName(prefix, name) {
      BundleNameWitness(prefix, name);
    }
    if BundleNameSpec(prefix, name) {
      BundleNameFromSpec(prefix, name);
    }
  }

  /** `panupv2-all-contents-1-2.tgz` is a content bundle name (a prefix match). */
  lemma ContentBundleExample()
    ensures IsBundleName(CONTENT_PREFIX, "panupv2-all-contents-1-2.tgz")
  {
    var name := "panupv2-all-contents-1-2.tgz";
    assert name[..|CONTENT_PREFIX|] == CONTENT_PREFIX;
    assert name[|CONTENT_PREFIX| + 1..] == "-2.tgz";
  }

  /** A hexadecimal serial is not a device-log name: the stem must be all digits,
      `PaloVersionBatch`, or start with `fe80`. */
  lemma HexSerialIsNotLogName()
    ensures !IsLogName("001122AABBCC.log")
  {
    var s := "001122AABBCC.log";
    assert s[..|s| - 4] == "001122AABBCC";
    assert !IsDigit("001122AABBCC"[6]);
    assert "001122AABBCC"[..4] != "fe80" by { assert "001122AABBCC"[0] != 'f'; }
  }
}
