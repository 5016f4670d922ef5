/** The job launcher: the lookups on the removable media, `find_content`,
    `find_antivirus` and `find_authkey` (paloversion-gui.py:156-181), and the
    START button, `Panel1.close` (paloversion-gui.py:241-289), which either
    switches to an error screen, does nothing, or builds the command line of the
    upgrade script.  A decoder for that command line shows that it carries every
    chosen option, in its fixed order. */
module Launch {
  import opened Text
  import opened Files
  import opened Patterns

  const SCRIPT_PATH := "/home/pi/Desktop/paloversion.sh"
  const FIRMWARE_PATH := "/media/usb0/"
  const NETWORK_INTERFACE := "eth0"
  const AUTHKEY_FILE := "authkey.txt"
  /** The version shown before the operator picks one. */
  const PLACEHOLDER := "Pan-OS Selection"

  /** The text of the command line around the options and the version. */
  const COMMAND_HEAD := SCRIPT_PATH + " -f "
  const COMMAND_MIDDLE := " -z \"\" \"\" \"\" \"" + FIRMWARE_PATH + "\" \""
  const COMMAND_TAIL := " \"" + NETWORK_INTERFACE + "\""

  /** `find_content` and `find_antivirus`: the first name in walk order that
      `prefix + \d+-\d+` matches at its start, or "" when there is none. */
  function FindBundle(media: seq<Entry<string>>, prefix: string): (name: string)
    ensures name != "" ==> IsBundleName(prefix, name)
  {
    if media == [] then ""
    else if IsBundleName(prefix, media[0].name) then media[0].name
    else FindBundle(media[1..], prefix)
  }

  /** The name `FindBundle` returns is the first matching one in walk order. */
  lemma {:induction false} FindBundleFirstMatch(media: seq<Entry<string>>, prefix: string, k: nat)
    requires k < |media| && IsBundleName(prefix, media[k].name)
    requires forall j | 0 <= j < k :: !IsBundleName(prefix, media[j].name)
    ensures FindBundle(media, prefix) == media[k].name
  {
    if k > 0 {
      assert !IsBundleName(prefix, media[0].name);
      assert forall j | 0 <= j < k - 1 :: media[1..][j] == media[j + 1];
      FindBundleFirstMatch(media[1..], prefix, k - 1);
    }
  }

  /** When no name matches, `FindBundle` returns "". */
  lemma {:induction false} FindBundleNoMatch(media: seq<Entry<string>>, prefix: string)
    requires forall k | 0 <= k < |media| :: !IsBundleName(prefix, media[k].name)
    ensures FindBundle(media, prefix) == ""
  {
    if media != [] {
      assert !IsBundleName(prefix, media[0].name);
      assert forall k | 0 <= k < |media| - 1 :: media[1..][k] == media[k + 1];
      FindBundleNoMatch(media[1..], prefix);
    }
  }

  function FindContent(media: seq<Entry<string>>): string {
    FindBundle(media, CONTENT_PREFIX)
  }

  function FindAntivirus(media: seq<Entry<string>>): string {
    FindBundle(media, ANTIVIRUS_PREFIX)
  }

  predicate IsReadableAuthkey(e: Entry<string>) {
    e.name == AUTHKEY_FILE && e.read.Ok?
  }

  /** `find_authkey`: the first line, without its newline, of the first
      `authkey.txt` that can be read; unreadable ones are skipped; "" when there
      is none. */
  function FindAuthkey(media: seq<Entry<string>>): (key: string)
    ensures '\n' !in key
  {
    if media == [] then ""
    else if media[0].name == AUTHKEY_FILE then
      match media[0].read
      case Ok(contents) => FirstLine(contents)
      case Failed(_) => FindAuthkey(media[1..])
    else FindAuthkey(media[1..])
  }

  /** `FindAuthkey` reads the first readable `authkey.txt` in walk order. */
  lemma {:induction false} FindAuthkeyFirstReadable(media: seq<Entry<string>>, k: nat)
    requires k < |media| && IsReadableAuthkey(media[k])
    requires forall j | 0 <= j < k :: !IsReadableAuthkey(media[j])
    ensures FindAuthkey(media) == FirstLine(media[k].read.value)
  {
    if k > 0 {
      assert !IsReadableAuthkey(media[0]);
      assert forall j | 0 <= j < k - 1 :: media[1..][j] == media[j + 1];
      FindAuthkeyFirstReadable(media[1..], k - 1);
    }
  }

  /** With no readable `authkey.txt`, `FindAuthkey` gives "". */
  lemma {:induction false} FindAuthkeyNoneReadable(media: seq<Entry<string>>)
    requires forall k | 0 <= k < |media| :: !IsReadableAuthkey(media[k])
    ensures FindAuthkey(media) == ""
  {
    if media != [] {
      assert !IsReadableAuthkey(media[0]);
      assert forall k | 0 <= k < |media| - 1 :: media[1..][k] == media[k + 1];
      FindAuthkeyNoneReadable(media[1..]);
    }
  }

  /** The eight toggle buttons of the start screen, true when pressed ("down").
      The MAC-filter toggle starts pressed. */
  datatype Toggles = Toggles(excludeNonPaMacs: bool, dryRun: bool, shutdown: bool,
                             ignoreErrors: bool, licenses: bool, contentAv: bool,
                             config: bool, authkey: bool)

  datatype Bundles = Bundles(content: string, antivirus: string)

  /** The options of one run of the upgrade script, one per flag:
      -m, -d, -s, -i, -k, -t/-a, -c and -p. */
  datatype Options = Options(mac: bool, dryRun: bool, shutdown: bool, ignoreErrors: bool,
                             licenses: bool, bundles: Option<Bundles>, config: bool,
                             authkey: Option<string>)

  /** What pressing START leads to: nothing, one of the three error screens, or
      the upgrade script started with `command` (then the status screen). */
  datatype Outcome = NoAction | ContentError | AntivirusError | AuthkeyError | Launch(command: string)

  function Flag(present: bool, flag: string): string {
    if present then flag else ""
  }

  /** `'-t "{}" -a "{}" '.format(content_path, antivirus_path)` */
  function BundleText(content: string, antivirus: string): string {
    "-t \"" + content + "\" -a \"" + antivirus + "\" "
  }

  /** `'-p "{}"'.format(authkey)` */
  function AuthkeyText(key: string): string {
    "-p \"" + key + "\""
  }

  function BundleArgs(b: Option<Bundles>): string {
    match b
    case None => ""
    case Some(bs) => BundleText(bs.content, bs.antivirus)
  }

  function AuthkeyArgs(k: Option<string>): string {
    match k
    case None => ""
    case Some(key) => AuthkeyText(key)
  }

  /** `OPT_ARGS`. */
  function OptArgs(o: Options): string {
    Flag(o.mac, "-m ") + Flag(o.dryRun, "-d ") + Flag(o.shutdown, "-s ") +
    Flag(o.ignoreErrors, "-i ") + Flag(o.licenses, "-k ") + BundleArgs(o.bundles) +
    Flag(o.config, "-c ") + AuthkeyArgs(o.authkey)
  }

  /** The command line around `OPT_ARGS` and the version:
      `'{} -f {} -z "" "" "" "{}" "{}" "{}"'.format(...)`. */
  function FormatCommand(optArgs: string, version: string): string {
    COMMAND_HEAD + optArgs + COMMAND_MIDDLE + version + "\"" + COMMAND_TAIL
  }

  function Command(o: Options, version: string): string {
    FormatCommand(OptArgs(o), version)
  }

  /** The options the toggles and the lookups give; `-m` is passed when the
      MAC-filter toggle is NOT pressed. */
  function OptionsOf(t: Toggles, content: string, antivirus: string, authkey: string): Options {
    Options(!t.excludeNonPaMacs, t.dryRun, t.shutdown, t.ignoreErrors, t.licenses,
            if t.contentAv then Some(Bundles(content, antivirus)) else None,
            t.config, if t.authkey then Some(authkey) else None)
  }

  /** The launch decision, from the selected version, the toggles and the results
      of the three lookups. */
  function Decide(version: string, t: Toggles, content: string, antivirus: string,
                  authkey: string): Outcome
  {
    if version == PLACEHOLDER then NoAction
    else if t.contentAv && content == "" then ContentError
    else if t.contentAv && antivirus == "" then AntivirusError
    else if t.authkey && authkey == "" then AuthkeyError
    else Launch(Command(OptionsOf(t, content, antivirus, authkey), version))
  }

  /** `OPT_ARGS` grown piece by piece, the bundles and the authkey appended
      only when present, comes out as `OptArgs`. */
  lemma OptArgsInPieces(o: Options, upToLicenses: string, upToBundles: string, upToConfig: string,
                        all: string)
    requires upToLicenses == "" + Flag(o.mac, "-m ") + Flag(o.dryRun, "-d ") + Flag(o.shutdown, "-s ") +
                             Flag(o.ignoreErrors, "-i ") + Flag(o.licenses, "-k ")
    requires o.bundles.None? ==> upToBundles == upToLicenses
    requires o.bundles.Some? ==>
               upToBundles == upToLicenses + BundleText(o.bundles.value.content, o.bundles.value.antivirus)
    requires upToConfig == upToBundles + Flag(o.config, "-c ")
    requires o.authkey.None? ==> all == upToConfig
    requires o.authkey.Some? ==> all == upToConfig + AuthkeyText(o.authkey.value)
    ensures all == OptArgs(o)
  {
    assert "" + Flag(o.mac, "-m ") == Flag(o.mac, "-m ");
    if o.bundles.None? {
      assert upToLicenses + BundleArgs(o.bundles) == upToLicenses;
    }
    if o.authkey.None? {
      assert upToConfig + AuthkeyArgs(o.authkey) == upToConfig;
    }
  }

  /** `if pressed: OPT_ARGS += flag`. */
  method AddFlag(optArgs: string, pressed: bool, flag: string) returns (r: string)
    ensures r == optArgs + Flag(pressed, flag)
  {
    r := optArgs;
    if pressed {
      r := r + flag;
    }
  }

  /** `Panel1.close`: builds `OPT_ARGS` flag by flag, looking content, antivirus
      and authkey up only when their toggle is pressed, and gives up at the first
      lookup that finds nothing. */
  method Close(version: string, t: Toggles, media: seq<Entry<string>>) returns (outcome: Outcome)
    ensures outcome == Decide(version, t, FindContent(media), FindAntivirus(media), FindAuthkey(media))
  {
    if version == PLACEHOLDER {
      return NoAction;
    }
    ghost var o := OptionsOf(t, FindContent(media), FindAntivirus(media), FindAuthkey(media));
    var optArgs := "";
    optArgs := AddFlag(optArgs, !t.excludeNonPaMacs, "-m ");
    optArgs := AddFlag(optArgs, t.dryRun, "-d ");
    optArgs := AddFlag(optArgs, t.shutdown, "-s ");
    optArgs := AddFlag(optArgs, t.ignoreErrors, "-i ");
    optArgs := AddFlag(optArgs, t.licenses, "-k ");
    ghost var upToLicenses := optArgs;
    if t.contentAv {
      var contentPath := FindContent(media);
      if contentPath == "" {
        return ContentError;
      }
      var antivirusPath := FindAntivirus(media);
      if antivirusPath == "" {
        return AntivirusError;
      }
      optArgs := optArgs + BundleText(contentPath, antivirusPath);
    }
    ghost var upToBundles := optArgs;
    optArgs := AddFlag(optArgs, t.config, "-c ");
    ghost var upToConfig := optArgs;
    if t.authkey {
      var authkey := FindAuthkey(media);
      if authkey == "" {
        return AuthkeyError;
      }
      optArgs := optArgs + AuthkeyText(authkey);
    }
    OptArgsInPieces(o, upToLicenses, upToBundles, upToConfig, optArgs);
    outcome := Launch(FormatCommand(optArgs, version));
  }

  /** Every way START can end, and why: only a launch carries a command. */
  lemma DecideOutcomes(version: string, t: Toggles, content: string, antivirus: string, authkey: string)
    ensures Decide(version, t, content, antivirus, authkey) == NoAction <==> version == PLACEHOLDER
    ensures Decide(version, t, content, antivirus, authkey) == ContentError <==>
              version != PLACEHOLDER && t.contentAv && content == ""
    ensures Decide(version, t, content, antivirus, authkey) == AntivirusError <==>
              version != PLACEHOLDER && t.contentAv && content != "" && antivirus == ""
    ensures Decide(version, t, content, antivirus, authkey) == AuthkeyError <==>
              version != PLACEHOLDER && (t.contentAv ==> content != "" && antivirus != "") &&
              t.authkey && authkey == ""
  {
  }

  /** When the content lookup fails, the antivirus and authkey lookups make no
      difference: they are never reached. */
  lemma ContentErrorSkipsLaterLookups(version: string, t: Toggles, antivirus1: string, antivirus2: string,
                                      authkey1: string, authkey2: string)
    requires version != PLACEHOLDER && t.contentAv
    ensures Decide(version, t, "", antivirus1, authkey1) == Decide(version, t, "", antivirus2, authkey2)
            == ContentError
  {
  }

  /** Any version offered in the list can be started: it is not the placeholder. */
  lemma VersionTokenIsNotPlaceholder(v: string)
    requires IsVersionToken(v)
    ensures v != PLACEHOLDER && '"' !in v
  {
    VersionTokenUnquoted(v);
    assert PLACEHOLDER[6] == ' ';
  }

  // ---------------------------------------------------------------------------
  // Reading a command line back.

  predicate QuoteFree(o: Options) {
    && (o.bundles.Some? ==> '"' !in o.bundles.value.content && '"' !in o.bundles.value.antivirus)
    && (o.authkey.Some? ==> '"' !in o.authkey.value)
  }

  /** The letter of the flag `s` starts with, or a blank when it starts with none. */
  function Lead(s: string): char {
    if |s| >= 2 && s[0] == '-' then s[1] else ' '
  }

  function TakeFlag(flag: string, s: string): (bool, string) {
    if IsPrefix(flag, s) then (true, s[|flag|..]) else (false, s)
  }

  /** The text up to the first double quote, and what follows that quote. */
  function TakeQuoted(s: string): Option<(string, string)> {
    if s == [] then None
    else if s[0] == '"' then Some(([], s[1..]))
    else match TakeQuoted(s[1..])
      case None => None
      case Some((v, rest)) => Some(([s[0]] + v, rest))
  }

  function TakeBundles(s: string): Option<(Option<Bundles>, string)> {
    if !IsPrefix("-t \"", s) then Some((None, s))
    else match TakeQuoted(s[4..])
      case None => None
      case Some((content, r1)) =>
        if !IsPrefix(" -a \"", r1) then None
        else match TakeQuoted(r1[5..])
          case None => None
          case Some((antivirus, r2)) =>
            if !IsPrefix(" ", r2) then None else Some((Some(Bundles(content, antivirus)), r2[1..]))
  }

  function TakeAuthkey(s: string): Option<(Option<string>, string)> {
    if !IsPrefix("-p \"", s) then Some((None, s))
    else match TakeQuoted(s[4..])
      case None => None
      case Some((key, r)) => Some((Some(key), r))
  }

  /** Reads back what follows the five switches: the bundles, `-c` and the
      authkey, in that order. */
  function DecodeTail(s: string): Option<(Option<Bundles>, bool, Option<string>, string)> {
    match TakeBundles(s)
    case None => None
    case Some((bundles, r1)) =>
      var c := TakeFlag("-c ", r1);
      match TakeAuthkey(c.1)
      case None => None
      case Some((authkey, r2)) => Some((bundles, c.0, authkey, r2))
  }

  /** Reads the options back, in the one order `OptArgs` writes them. */
  function DecodeOptArgs(s: string): Option<(Options, string)> {
    var m := TakeFlag("-m ", s);
    var d := TakeFlag("-d ", m.1);
    var sh := TakeFlag("-s ", d.1);
    var i := TakeFlag("-i ", sh.1);
    var k := TakeFlag("-k ", i.1);
    match DecodeTail(k.1)
    case None => None
    case Some((bundles, config, authkey, r)) =>
      Some((Options(m.0, d.0, sh.0, i.0, k.0, bundles, config, authkey), r))
  }

  /** Reads a whole command line back into its options and version. */
  function DecodeCommand(cmd: string): Option<(Options, string)> {
    if !IsPrefix(COMMAND_HEAD, cmd) then None
    else match DecodeOptArgs(cmd[|COMMAND_HEAD|..])
      case None => None
      case Some((o, r1)) =>
        if !IsPrefix(COMMAND_MIDDLE, r1) then None
        else match TakeQuoted(r1[|COMMAND_MIDDLE|..])
          case None => None
          case Some((version, r2)) => if r2 == COMMAND_TAIL then Some((o, version)) else None
  }

  lemma Assoc(a: string, b: string, c: string)
    ensures (a + b) + c == a + (b + c)
  {
  }

  lemma {:induction false} TakeQuotedRoundTrip(v: string, rest: string)
    requires '"' !in v
    ensures TakeQuoted(v + "\"" + rest) == Some((v, rest))
    decreases |v|
  {
    if v == [] {
      assert v + "\"" + rest == ['"'] + rest;
    } else {
      assert (v + "\"" + rest)[1..] == v[1..] + "\"" + rest;
      TakeQuotedRoundTrip(v[1..], rest);
      assert [v[0]] + v[1..] == v;
    }
  }

  lemma FlagRoundTrip(present: bool, flag: string, rest: string)
    requires |flag| == 3 && flag[0] == '-' && flag[1] != ' ' && Lead(rest) != flag[1]
    ensures TakeFlag(flag, Flag(present, flag) + rest) == (present, rest)
    ensures Lead(Flag(present, flag) + rest) == if present then flag[1] else Lead(rest)
  {
    if present {
      assert (flag + rest)[..3] == flag && (flag + rest)[3..] == rest;
    } else {
      assert Flag(present, flag) + rest == rest;
    }
  }

  lemma BundlesRoundTrip(b: Option<Bundles>, rest: string)
    requires b.Some? ==> '"' !in b.value.content && '"' !in b.value.antivirus
    requires Lead(rest) != 't'
    ensures TakeBundles(BundleArgs(b) + rest) == Some((b, rest))
    ensures Lead(BundleArgs(b) + rest) == if b.Some? then 't' else Lead(rest)
  {
    match b
    case None =>
      assert BundleArgs(b) + rest == rest;
    case Some(bs) =>
      var s := BundleArgs(b) + rest;
      assert BundleArgs(b) == "-t \"" + bs.content + "\" -a \"" + bs.antivirus + "\" ";
      var r1 := " -a \"" + bs.antivirus + "\" " + rest;
      var r2 := " " + rest;
      assert s == "-t \"" + (bs.content + "\"" + r1);
      assert s[4..] == bs.content + "\"" + r1;
      TakeQuotedRoundTrip(bs.content, r1);
      assert r1 == " -a \"" + (bs.antivirus + "\"" + r2);
      assert r1[5..] == bs.antivirus + "\"" + r2;
      TakeQuotedRoundTrip(bs.antivirus, r2);
      assert r2[1..] == rest;
  }

  lemma AuthkeyRoundTrip(k: Option<string>, rest: string)
    requires k.Some? ==> '"' !in k.value
    requires Lead(rest) != 'p'
    ensures TakeAuthkey(AuthkeyArgs(k) + rest) == Some((k, rest))
    ensures Lead(AuthkeyArgs(k) + rest) == if k.Some? then 'p' else Lead(rest)
  {
    match k
    case None =>
      assert AuthkeyArgs(k) + rest == rest;
    case Some(key) =>
      var s := AuthkeyArgs(k) + rest;
      assert AuthkeyArgs(k) == "-p \"" + key + "\"";
      assert s == "-p \"" + (key + "\"" + rest);
      assert s[4..] == key + "\"" + rest;
      TakeQuotedRoundTrip(key, rest);
  }

  /** `OPT_ARGS` followed by `rest`, with the concatenation regrouped from the
      right, the way the decoder consumes it. */
  lemma OptArgsFromTheRight(o: Options, rest: string)
    ensures OptArgs(o) + rest ==
            Flag(o.mac, "-m ") + (Flag(o.dryRun, "-d ") + (Flag(o.shutdown, "-s ") +
            (Flag(o.ignoreErrors, "-i ") + (Flag(o.licenses, "-k ") + (BundleArgs(o.bundles) +
            (Flag(o.config, "-c ") + (AuthkeyArgs(o.authkey) + rest)))))))
  {
    var m, d, sh, i, k := Flag(o.mac, "-m "), Flag(o.dryRun, "-d "), Flag(o.shutdown, "-s "),
                          Flag(o.ignoreErrors, "-i "), Flag(o.licenses, "-k ");
    var b, c, a := BundleArgs(o.bundles), Flag(o.config, "-c "), AuthkeyArgs(o.authkey);
    Assoc(m + d + sh + i + k + b + c, a, rest);
    Assoc(m + d + sh + i + k + b, c, a + rest);
    Assoc(m + d + sh + i + k, b, c + (a + rest));
    Assoc(m + d + sh + i, k, b + (c + (a + rest)));
    Assoc(m + d + sh, i, k + (b + (c + (a + rest))));
    Assoc(m + d, sh, i + (k + (b + (c + (a + rest)))));
    Assoc(m, d, sh + (i + (k + (b + (c + (a + rest))))));
  }

  /** The bundles, `-c` and the authkey are read back from the end of
      `OPT_ARGS`, which starts with none of the five switches. */
  lemma TailRoundTrip(o: Options, rest: string)
    requires QuoteFree(o) && Lead(rest) == ' '
    ensures var tail := BundleArgs(o.bundles) + (Flag(o.config, "-c ") + (AuthkeyArgs(o.authkey) + rest));
            DecodeTail(tail) == Some((o.bundles, o.config, o.authkey, rest)) &&
            Lead(tail) != 'm' && Lead(tail) != 'd' && Lead(tail) != 's' && Lead(tail) != 'i' &&
            Lead(tail) != 'k'
  {
    var r7 := AuthkeyArgs(o.authkey) + rest;
    AuthkeyRoundTrip(o.authkey, rest);
    var r6 := Flag(o.config, "-c ") + r7;
    FlagRoundTrip(o.config, "-c ", r7);
    BundlesRoundTrip(o.bundles, r6);
  }

  /** The options are read back from `OPT_ARGS` whatever follows it, provided
      what follows does not start with a flag. */
  lemma OptArgsRoundTrip(o: Options, rest: string)
    requires QuoteFree(o) && Lead(rest) == ' '
    ensures DecodeOptArgs(OptArgs(o) + rest) == Some((o, rest))
  {
    var r5 := BundleArgs(o.bundles) + (Flag(o.config, "-c ") + (AuthkeyArgs(o.authkey) + rest));
    TailRoundTrip(o, rest);
    var r4 := Flag(o.licenses, "-k ") + r5;
    FlagRoundTrip(o.licenses, "-k ", r5);
    var r3 := Flag(o.ignoreErrors, "-i ") + r4;
    FlagRoundTrip(o.ignoreErrors, "-i ", r4);
    var r2 := Flag(o.shutdown, "-s ") + r3;
    FlagRoundTrip(o.shutdown, "-s ", r3);
    var r1 := Flag(o.dryRun, "-d ") + r2;
    FlagRoundTrip(o.dryRun, "-d ", r2);
    FlagRoundTrip(o.mac, "-m ", r1);
    OptArgsFromTheRight(o, rest);
  }

  /** The command line determines the options and the version it was built from,
      when the file names, the authkey and the version hold no double quote. */
  lemma {:induction false} CommandRoundTrip(o: Options, version: string)
    requires QuoteFree(o) && '"' !in version
    ensures DecodeCommand(Command(o, version)) == Some((o, version))
  {
    var cmd := Command(o, version);
    var opts := OptArgs(o);
    var after := COMMAND_MIDDLE + version + "\"" + COMMAND_TAIL;
    Assoc(COMMAND_HEAD + opts + COMMAND_MIDDLE + version, "\"", COMMAND_TAIL);
    Assoc(COMMAND_HEAD + opts + COMMAND_MIDDLE, version, "\"" + COMMAND_TAIL);
    Assoc(COMMAND_HEAD + opts, COMMAND_MIDDLE, version + ("\"" + COMMAND_TAIL));
    Assoc(COMMAND_HEAD, opts, COMMAND_MIDDLE + (version + ("\"" + COMMAND_TAIL)));
    Assoc(COMMAND_MIDDLE + version, "\"", COMMAND_TAIL);
    Assoc(COMMAND_MIDDLE, version, "\"" + COMMAND_TAIL);
    assert cmd == COMMAND_HEAD + (opts + after);
    assert cmd[|COMMAND_HEAD|..] == opts + after;
    assert Lead(after) == ' ';
    OptArgsRoundTrip(o, after);
    assert after[|COMMAND_MIDDLE|..] == version + "\"" + COMMAND_TAIL;
    TakeQuotedRoundTrip(version, COMMAND_TAIL);
  }

  /** A launched command carries exactly the chosen options, in the fixed order
      `-m -d -s -i -k -t -a -c -p`: `-m` when the MAC-filter toggle is not
      pressed, every other flag when its toggle is pressed, with the content and
      antivirus names and the authkey that the lookups found. */
  lemma LaunchCarriesToggles(version: string, t: Toggles, content: string, antivirus: string,
                             authkey: string)
    requires Decide(version, t, content, antivirus, authkey).Launch?
    requires '"' !in content && '"' !in antivirus && '"' !in authkey && '"' !in version
    ensures DecodeCommand(Decide(version, t, content, antivirus, authkey).command) ==
            Some((Options(!t.excludeNonPaMacs, t.dryRun, t.shutdown, t.ignoreErrors, t.licenses,
                          if t.contentAv then Some(Bundles(content, antivirus)) else None,
                          t.config, if t.authkey then Some(authkey) else None),
                  version))
  {
    CommandRoundTrip(OptionsOf(t, content, antivirus, authkey), version);
  }
}
