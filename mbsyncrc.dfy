/** The reader and rewriter of mbsync's configuration file (`~/.mbsyncrc`).

    `Parse` turns the lines of the file into one settings record per IMAP
    section, `Generate` reproduces the file with every `PassCmd` of a known
    IMAP section replaced by a literal `pass` line, and `CallMbsync` is the
    pure part of launching mbsync: the password map, the rewritten document
    and the command line. */
module MbsyncRc {
  import opened Common

  /** One line of the file: its raw text as read (newline included) and the
      tokens the shell-style tokenizer produced from it. */
  datatype Line = Line(raw: string, tokens: seq<string>)

  const SectionKeywords: seq<string> := ["maildirstore", "imapaccount", "imapstore", "channel", "group"]
  const ImapKeywords: seq<string> := ["imapstore", "imapaccount"]

  predicate IsComment(l: Line)
  {
    |l.raw| > 0 && l.raw[0] == '#'
  }

  /** The truth value Python gives the current section name: `None` and the
      empty name are both false. */
  predicate Active(section: Option<string>)
  {
    section.Some? && section.value != ""
  }

  /** A `Port` line stores its text; the default filled in by `SSLType` is a number. */
  datatype Port = PortText(text: string) | PortNumber(number: int)

  /** The settings dictionary of one section; a missing key is `None`. */
  datatype Entry = Entry(
    server: Option<string>,
    port: Option<Port>,
    user: Option<string>,
    passwd: Option<string>,
    security: Option<string>,
    certfile: Option<string>,
    folders: Option<seq<string>>)

  const NoSettings: Entry := Entry(None, None, None, None, None, None, None)

  type Conf = OrdMap<Entry>

  /** The `mboxes` argument: `None`, a collection of section names, or a
      dictionary from section names to their folder lists. */
  datatype Filter = AnySection | Names(names: seq<string>) | Mailboxes(boxes: OrdMap<seq<string>>)
  {
    ghost predicate Valid()
    {
      Mailboxes? ==> boxes.Valid()
    }

    predicate Admits(name: string)
    {
      match this
      case AnySection => true
      case Names(names) => name in names
      case Mailboxes(boxes) => name in boxes.values
    }
  }

  /** The exceptions `parse` can raise. */
  datatype ParseError =
    | EmptyPassCmd                        // `items[1][0]` on an empty token
    | PassCmdFailed(command: string)      // the password command failed
    | EmptyPassCmdOutput(command: string) // `pw[-1]` on empty output
    | UnknownSslType(value: string)       // `ssltype2sec[...]` misses
    | MissingSection(name: string)        // a filter key with no parsed section

  datatype ParseState = ParseState(section: Option<string>, conf: Conf)
  {
    ghost predicate Valid()
    {
      conf.Valid() && (section.Some? ==> section.value in conf.values)
    }
  }

  const InitialState: ParseState := ParseState(None, EmptyDict())

  /** A line `parse` skips before looking at its keyword. */
  predicate Skipped(l: Line)
  {
    IsComment(l) || |l.tokens| <= 1
  }

  /** A line that opens a fresh entry named `l.tokens[1]`. */
  predicate OpensEntry(filter: Filter, l: Line)
  {
    !Skipped(l) && Lower(l.tokens[0]) in ImapKeywords && filter.Admits(l.tokens[1])
  }

  /** The `ssltype2sec` table. */
  function SecurityOf(sslType: string): (r: Option<string>)
    ensures r == Some("None") <==> sslType == "none"
    ensures r == Some("starttls") <==> sslType == "starttls"
    ensures r == Some("explicit-ssl") <==> sslType == "imaps"
    ensures r.None? <==> sslType != "none" && sslType != "starttls" && sslType != "imaps"
  {
    if sslType == "none" then Some("None")
    else if sslType == "starttls" then Some("starttls")
    else if sslType == "imaps" then Some("explicit-ssl")
    else None
  }

  function DefaultPort(sslType: string): int
  {
    if Lower(sslType) == "imaps" then 993 else 143
  }

  /** The password command without one leading `+`. */
  function StripPlus(command: string): (r: string)
    requires command != ""
    ensures command[0] == '+' ==> command == "+" + r
    ensures command[0] != '+' ==> r == command
  {
    if command[0] == '+' then command[1..] else command
  }

  /** The command's output without one trailing newline. */
  function Chomp(output: string): (r: string)
    requires output != ""
    ensures output[|output| - 1] == '\n' ==> r + "\n" == output
    ensures output[|output| - 1] != '\n' ==> r == output
  {
    if output[|output| - 1] == '\n' then output[..|output| - 1] else output
  }

  /** Replaces the entry of the current section. */
  function SetCurrent(st: ParseState, e: Entry): (r: ParseState)
    requires st.Valid() && st.section.Some?
    ensures r.Valid() && r.section == st.section && r.conf.keys == st.conf.keys
  {
    st.(conf := st.conf.Put(st.section.value, e))
  }

  /** What a setting line with this keyword and argument does to the entry
      of the current section; `run` gives the output of a password command,
      or `None` when the command fails. */
  function Setting(keyword: string, arg: string, run: string -> Option<string>, e: Entry): Result<Entry, ParseError>
  {
    if keyword == "host" then Ok(e.(server := Some(arg)))
    else if keyword == "port" then Ok(e.(port := Some(PortText(arg))))
    else if keyword == "user" then Ok(e.(user := Some(arg)))
    else if keyword == "pass" then Ok(e.(passwd := Some(arg)))
    else if keyword == "passcmd" then
      if arg == "" then Err(EmptyPassCmd)
      else
        var command := StripPlus(arg);
        match run(command)
        case None => Err(PassCmdFailed(command))
        case Some(output) =>
          if output == "" then Err(EmptyPassCmdOutput(command))
          else Ok(e.(passwd := Some(Chomp(output))))
    else if keyword == "ssltype" then
      match SecurityOf(Lower(arg))
      case None => Err(UnknownSslType(arg))
      case Some(security) =>
        var port := if e.port.Some? then e.port else Some(PortNumber(DefaultPort(arg)));
        Ok(e.(security := Some(security), port := port))
    else if keyword == "certificatefile" then Ok(e.(certfile := Some(arg)))
    else Ok(e)
  }

  /** What one line of the file does to the state of `parse`. */
  function ParseStep(filter: Filter, run: string -> Option<string>, st: ParseState, l: Line): (r: Result<ParseState, ParseError>)
    requires st.Valid()
    ensures r.Ok? ==> r.value.Valid()
  {
    if Skipped(l) then Ok(st)
    else
      var keyword := Lower(l.tokens[0]);
      var arg := l.tokens[1];
      if keyword in SectionKeywords then
        if keyword in ImapKeywords && filter.Admits(arg) then
          Ok(ParseState(Some(arg), st.conf.Put(arg, NoSettings)))
        else
          Ok(st.(section := None))
      else if !Active(st.section) then Ok(st)
      else
        match Setting(keyword, arg, run, st.conf.values[st.section.value])
        case Err(e) => Err(e)
        case Ok(e) => Ok(SetCurrent(st, e))
  }

  /** The state of `parse` after the given lines, or the exception raised on the way. */
  function ParseLines(filter: Filter, run: string -> Option<string>, lines: seq<Line>): (r: Result<ParseState, ParseError>)
    ensures r.Ok? ==> r.value.Valid()
    decreases |lines|
  {
    if lines == [] then Ok(InitialState)
    else
      match ParseLines(filter, run, lines[..|lines| - 1])
      case Err(e) => Err(e)
      case Ok(st) => ParseStep(filter, run, st, lines[|lines| - 1])
  }

  /** `conf[k]["folders"] = boxes[k]` for each filter key in turn. */
  function SetMailboxes(names: seq<string>, boxes: map<string, seq<string>>, conf: Conf): (r: Result<Conf, ParseError>)
    requires conf.Valid()
    requires forall k :: k in names ==> k in boxes
    decreases |names|
  {
    if names == [] then Ok(conf)
    else if names[0] !in conf.values then Err(MissingSection(names[0]))
    else SetMailboxes(names[1..], boxes, conf.Put(names[0], conf.values[names[0]].(folders := Some(boxes[names[0]]))))
  }

  /** `conf[k]["folders"] = ["INBOX"]` for each of the given keys. */
  function SetInbox(names: seq<string>, conf: Conf): (r: Conf)
    requires conf.Valid()
    requires forall k :: k in names ==> k in conf.values
    decreases |names|
  {
    if names == [] then conf
    else SetInbox(names[1..], conf.Put(names[0], conf.values[names[0]].(folders := Some(["INBOX"]))))
  }

  /** The specification of `parse`: the line-by-line state machine followed by
      the attachment of folder lists. */
  function ParseSpec(filter: Filter, run: string -> Option<string>, lines: seq<Line>): Result<Conf, ParseError>
    requires filter.Valid()
  {
    match ParseLines(filter, run, lines)
    case Err(e) => Err(e)
    case Ok(st) =>
      if filter.Mailboxes? then SetMailboxes(filter.boxes.keys, filter.boxes.values, st.conf)
      else Ok(SetInbox(st.conf.keys, st.conf))
  }

  lemma {:induction false} ParseFailureIsFinal(filter: Filter, run: string -> Option<string>, lines: seq<Line>, k: nat)
    requires k <= |lines| && ParseLines(filter, run, lines[..k]).Err?
    ensures ParseLines(filter, run, lines) == ParseLines(filter, run, lines[..k])
    decreases |lines|
  {
    if k < |lines| {
      var init := lines[..|lines| - 1];
      assert init[..k] == lines[..k];
      ParseFailureIsFinal(filter, run, init, k);
    } else {
      assert lines[..k] == lines;
    }
  }

  /** The body of the line loop of `parse`: what one line does to the current
      section and the dictionary. */
  method ParseLine(filter: Filter, run: string -> Option<string>, st: ParseState, l: Line) returns (r: Result<ParseState, ParseError>)
    requires st.Valid()
    ensures r == ParseStep(filter, run, st, l)
  {
    var section, conf := st.section, st.conf;
    if Skipped(l) {
      return Ok(st);
    }
    var keyword := Lower(l.tokens[0]);
    var arg := l.tokens[1];
    if keyword in SectionKeywords {
      if keyword in ImapKeywords && filter.Admits(arg) {
        section := Some(arg);
        conf := conf.Put(arg, NoSettings);
      } else {
        section := None;
      }
    } else if keyword == "host" && Active(section) {
      conf := conf.Put(section.value, conf.values[section.value].(server := Some(arg)));
    } else if keyword == "port" && Active(section) {
      conf := conf.Put(section.value, conf.values[section.value].(port := Some(PortText(arg))));
    } else if keyword == "user" && Active(section) {
      conf := conf.Put(section.value, conf.values[section.value].(user := Some(arg)));
    } else if keyword == "pass" && Active(section) {
      conf := conf.Put(section.value, conf.values[section.value].(passwd := Some(arg)));
    } else if keyword == "passcmd" && Active(section) {
      if arg == "" {
        return Err(EmptyPassCmd);
      }
      var command := if arg[0] == '+' then arg[1..] else arg;
      var output := run(command);
      if output.None? {
        return Err(PassCmdFailed(command));
      }
      var pw := output.value;
      if pw == "" {
        return Err(EmptyPassCmdOutput(command));
      }
      pw := if pw[|pw| - 1] == '\n' then pw[..|pw| - 1] else pw;
      conf := conf.Put(section.value, conf.values[section.value].(passwd := Some(pw)));
    } else if keyword == "ssltype" && Active(section) {
      var security := SecurityOf(Lower(arg));
      if security.None? {
        return Err(UnknownSslType(arg));
      }
      var e := conf.values[section.value].(security := security);
      if e.port.None? {
        e := e.(port := Some(PortNumber(if Lower(arg) == "imaps" then 993 else 143)));
      }
      conf := conf.Put(section.value, e);
    } else if keyword == "certificatefile" && Active(section) {
      conf := conf.Put(section.value, conf.values[section.value].(certfile := Some(arg)));
    } else if Active(section) {
      // any other keyword: nothing is stored
      assert conf.values[section.value := conf.values[section.value]] == conf.values;
    }
    return Ok(ParseState(section, conf));
  }

  /** The line loop of `parse`: the current section and the dictionary it
      fills, one line at a time. */
  method ParseSections(filter: Filter, run: string -> Option<string>, lines: seq<Line>) returns (r: Result<ParseState, ParseError>)
    ensures r == ParseLines(filter, run, lines)
  {
    var st := InitialState;
    var i := 0;
    while i < |lines|
      invariant 0 <= i <= |lines|
      invariant ParseLines(filter, run, lines[..i]) == Ok(st)
    {
      assert lines[..i + 1][..i] == lines[..i];
      var next := ParseLine(filter, run, st, lines[i]);
      if next.Err? {
        ParseFailureIsFinal(filter, run, lines, i + 1);
        return next;
      }
      st := next.value;
      i := i + 1;
    }
    assert lines[..|lines|] == lines;
    return Ok(st);
  }

  /** The folder loop of `parse` for a dictionary filter. */
  method AttachMailboxes(boxes: OrdMap<seq<string>>, conf0: Conf) returns (r: Result<Conf, ParseError>)
    requires boxes.Valid() && conf0.Valid()
    ensures r == SetMailboxes(boxes.keys, boxes.values, conf0)
  {
    var conf := conf0;
    var names := boxes.keys;
    var j := 0;
    while j < |names|
      invariant 0 <= j <= |names|
      invariant conf.Valid()
      invariant SetMailboxes(names, boxes.values, conf0) == SetMailboxes(names[j..], boxes.values, conf)
    {
      var k := names[j];
      assert names[j..][0] == k && names[j..][1..] == names[j + 1..];
      if k !in conf.values {
        return Err(MissingSection(k));
      }
      conf := conf.Put(k, conf.values[k].(folders := Some(boxes.values[k])));
      j := j + 1;
    }
    return Ok(conf);
  }

  /** The folder loop of `parse` without a dictionary filter. */
  method AttachInbox(conf0: Conf) returns (conf: Conf)
    requires conf0.Valid()
    ensures conf == SetInbox(conf0.keys, conf0)
  {
    conf := conf0;
    var names := conf0.keys;
    var j := 0;
    while j < |names|
      invariant 0 <= j <= |names|
      invariant conf.Valid() && conf.keys == names
      invariant SetInbox(names, conf0) == SetInbox(names[j..], conf)
    {
      var k := names[j];
      assert names[j..][0] == k && names[j..][1..] == names[j + 1..];
      conf := conf.Put(k, conf.values[k].(folders := Some(["INBOX"])));
      j := j + 1;
    }
  }

  /** `parse` without the file read: the lines are given, and so is the output
      of every password command. */
  method Parse(filter: Filter, run: string -> Option<string>, lines: seq<Line>) returns (r: Result<Conf, ParseError>)
    requires filter.Valid()
    ensures r == ParseSpec(filter, run, lines)
  {
    var sections := ParseSections(filter, run, lines);
    if sections.Err? {
      return Err(sections.error);
    }
    if filter.Mailboxes? {
      r := AttachMailboxes(filter.boxes, sections.value.conf);
    } else {
      var conf := AttachInbox(sections.value.conf);
      r := Ok(conf);
    }
  }

  // ---------------------------------------------------------------------
  // Properties of `parse`

  /** The lines `parse` looks at: the given lines without the skipped ones. */
  function Significant(lines: seq<Line>): (r: seq<Line>)
    ensures forall i :: 0 <= i < |r| ==> !Skipped(r[i])
    decreases |lines|
  {
    if lines == [] then []
    else
      var last := lines[|lines| - 1];
      Significant(lines[..|lines| - 1]) + (if Skipped(last) then [] else [last])
  }

  /** Comment lines and lines of fewer than two tokens have no effect at all. */
  lemma {:induction false} SkippedLinesIgnored(filter: Filter, run: string -> Option<string>, lines: seq<Line>)
    ensures ParseLines(filter, run, lines) == ParseLines(filter, run, Significant(lines))
    decreases |lines|
  {
    if lines != [] {
      var init, last := lines[..|lines| - 1], lines[|lines| - 1];
      SkippedLinesIgnored(filter, run, init);
      if Skipped(last) {
        assert Significant(lines) == Significant(init) + [];
        assert Significant(init) + [] == Significant(init);
      } else {
        var sig := Significant(init) + [last];
        assert sig[..|sig| - 1] == Significant(init);
      }
    }
  }

  /** Some line of `lines` opens an entry named `k`. */
  ghost predicate Opened(filter: Filter, lines: seq<Line>, k: string)
  {
    exists i :: 0 <= i < |lines| && OpensEntry(filter, lines[i]) && lines[i].tokens[1] == k
  }

  lemma StepKeys(filter: Filter, run: string -> Option<string>, st: ParseState, l: Line)
    requires st.Valid() && ParseStep(filter, run, st, l).Ok?
    ensures forall k :: k in ParseStep(filter, run, st, l).value.conf.values
                        <==> k in st.conf.values || (OpensEntry(filter, l) && l.tokens[1] == k)
  {
    var r := ParseStep(filter, run, st, l).value;
    if !Skipped(l) && Active(st.section) && Lower(l.tokens[0]) !in SectionKeywords {
      assert r.conf.values.Keys == st.conf.values.Keys;
    }
  }

  /** The dictionary built by the line loop has exactly one entry per name
      that an admitted `IMAPStore`/`IMAPAccount` line opens. */
  lemma {:induction false} ParsedKeys(filter: Filter, run: string -> Option<string>, lines: seq<Line>)
    requires ParseLines(filter, run, lines).Ok?
    ensures forall k :: k in ParseLines(filter, run, lines).value.conf.values <==> Opened(filter, lines, k)
    decreases |lines|
  {
    if lines != [] {
      var init, last := lines[..|lines| - 1], lines[|lines| - 1];
      ParsedKeys(filter, run, init);
      var st := ParseLines(filter, run, init).value;
      var st' := ParseLines(filter, run, lines).value;
      assert ParseLines(filter, run, lines) == ParseStep(filter, run, st, last);
      StepKeys(filter, run, st, last);
      assert lines == init + [last];
      forall k
        ensures k in st'.conf.values <==> Opened(filter, lines, k)
      {
        OpenedAppend(filter, init, last, k);
      }
    }
  }

  lemma OpenedAppend(filter: Filter, init: seq<Line>, last: Line, k: string)
    ensures Opened(filter, init + [last], k) <==> Opened(filter, init, k) || (OpensEntry(filter, last) && last.tokens[1] == k)
  {
    var lines := init + [last];
    if Opened(filter, init, k) {
      var i :| 0 <= i < |init| && OpensEntry(filter, init[i]) && init[i].tokens[1] == k;
      assert lines[i] == init[i];
    }
    if OpensEntry(filter, last) && last.tokens[1] == k {
      assert lines[|init|] == last;
    }
    if Opened(filter, lines, k) {
      var i :| 0 <= i < |lines| && OpensEntry(filter, lines[i]) && lines[i].tokens[1] == k;
      if i < |init| {
        assert init[i] == lines[i];
      }
    }
  }

  lemma {:induction false} MailboxesAttached(names: seq<string>, boxes: map<string, seq<string>>, conf: Conf)
    requires conf.Valid()
    requires forall k :: k in names ==> k in boxes
    ensures SetMailboxes(names, boxes, conf).Ok? <==> forall k :: k in names ==> k in conf.values
    ensures SetMailboxes(names, boxes, conf).Ok? ==>
      var c := SetMailboxes(names, boxes, conf).value;
      && c.Valid() && c.keys == conf.keys && c.values.Keys == conf.values.Keys
      && forall k :: k in c.values ==>
           c.values[k] == if k in names then conf.values[k].(folders := Some(boxes[k])) else conf.values[k]
    decreases |names|
  {
    if names != [] && names[0] in conf.values {
      var k0 := names[0];
      var next := conf.Put(k0, conf.values[k0].(folders := Some(boxes[k0])));
      MailboxesAttached(names[1..], boxes, next);
      assert forall k :: k in names <==> k == k0 || k in names[1..];
    }
  }

  lemma {:induction false} InboxAttached(names: seq<string>, conf: Conf)
    requires conf.Valid()
    requires forall k :: k in names ==> k in conf.values
    ensures var c := SetInbox(names, conf);
      && c.Valid() && c.keys == conf.keys && c.values.Keys == conf.values.Keys
      && forall k :: k in c.values ==>
           c.values[k] == if k in names then conf.values[k].(folders := Some(["INBOX"])) else conf.values[k]
    decreases |names|
  {
    if names != [] {
      var k0 := names[0];
      var next := conf.Put(k0, conf.values[k0].(folders := Some(["INBOX"])));
      InboxAttached(names[1..], next);
      assert forall k :: k in names <==> k == k0 || k in names[1..];
    }
  }

  /** What `parse` returns: one entry per opened section, each with its folder
      list; with a dictionary filter, exactly the filter's keys, and an error
      when one of them was never opened. */
  lemma ParseOutcome(filter: Filter, run: string -> Option<string>, lines: seq<Line>)
    requires filter.Valid()
    ensures ParseSpec(filter, run, lines).Ok? ==>
      var c := ParseSpec(filter, run, lines).value;
      && c.Valid()
      && (forall k :: k in c.values <==> Opened(filter, lines, k))
      && (forall k :: k in c.values ==>
            c.values[k].folders == Some(if filter.Mailboxes? then filter.boxes.values[k] else ["INBOX"]))
    ensures ParseLines(filter, run, lines).Ok? && filter.Mailboxes? ==>
      (ParseSpec(filter, run, lines).Ok? <==> forall k :: k in filter.boxes.values ==> Opened(filter, lines, k))
    ensures ParseSpec(filter, run, lines).Ok? && filter.Mailboxes? ==>
      forall k :: k in ParseSpec(filter, run, lines).value.values <==> k in filter.boxes.values
  {
    if ParseLines(filter, run, lines).Ok? {
      var st := ParseLines(filter, run, lines).value;
      ParsedKeys(filter, run, lines);
      if filter.Mailboxes? {
        MailboxesAttached(filter.boxes.keys, filter.boxes.values, st.conf);
        assert forall k :: Opened(filter, lines, k) ==> k in filter.boxes.values;
      } else {
        InboxAttached(st.conf.keys, st.conf);
      }
    }
  }

  /** The keyword pairs that write one and the same field of the entry. */
  predicate SameSetting(first: string, second: string)
  {
    || (first == second && first in ["host", "port", "user", "certificatefile"])
    || (first in ["pass", "passcmd"] && second in ["pass", "passcmd"])
  }

  /** Within a section, a later `Host`, `Port`, `User`, `Pass`/`PassCmd` or
      `CertificateFile` line overwrites what an earlier one of the same kind set. */
  lemma LaterSettingWins(filter: Filter, run: string -> Option<string>, st: ParseState, first: Line, second: Line)
    requires st.Valid() && Active(st.section)
    requires !Skipped(first) && !Skipped(second)
    requires SameSetting(Lower(first.tokens[0]), Lower(second.tokens[0]))
    requires ParseStep(filter, run, st, first).Ok?
    ensures ParseStep(filter, run, ParseStep(filter, run, st, first).value, second) == ParseStep(filter, run, st, second)
  {
    var k1, k2 := Lower(first.tokens[0]), Lower(second.tokens[0]);
    assert k1 !in SectionKeywords && k2 !in SectionKeywords;
    var name := st.section.value;
    var e := st.conf.values[name];
    SettingOverwrites(k1, first.tokens[1], k2, second.tokens[1], run, e);
    var e1 := Setting(k1, first.tokens[1], run, e).value;
    var st1 := ParseStep(filter, run, st, first).value;
    assert st1 == SetCurrent(st, e1);
    assert st1.conf.values[name] == e1;
    match Setting(k2, second.tokens[1], run, e)
    case Err(_) =>
    case Ok(e2) =>
      assert st1.conf.values[name := e2] == st.conf.values[name := e2];
      assert SetCurrent(st1, e2) == SetCurrent(st, e2);
  }

  lemma SettingOverwrites(k1: string, a1: string, k2: string, a2: string, run: string -> Option<string>, e: Entry)
    requires SameSetting(k1, k2) && Setting(k1, a1, run, e).Ok?
    ensures Setting(k2, a2, run, Setting(k1, a1, run, e).value) == Setting(k2, a2, run, e)
  {
  }

  /** Outside an active section, every line other than a section header is ignored. */
  lemma LinesOutsideSectionsIgnored(filter: Filter, run: string -> Option<string>, st: ParseState, l: Line)
    requires st.Valid() && !Active(st.section)
    requires !Skipped(l) && Lower(l.tokens[0]) !in SectionKeywords
    ensures ParseStep(filter, run, st, l) == Ok(st)
  {
  }

  /** A section header opens a fresh, empty entry when it is an admitted IMAP
      section, even over an existing one, and otherwise leaves no section active. */
  lemma SectionHeaderLine(filter: Filter, run: string -> Option<string>, st: ParseState, l: Line)
    requires st.Valid()
    requires !Skipped(l) && Lower(l.tokens[0]) in SectionKeywords
    ensures ParseStep(filter, run, st, l).Ok?
    ensures OpensEntry(filter, l) ==>
      var r := ParseStep(filter, run, st, l).value;
      && r.section == Some(l.tokens[1])
      && r.conf.values == st.conf.values[l.tokens[1] := NoSettings]
      && (l.tokens[1] in st.conf.values ==> r.conf.keys == st.conf.keys)
    ensures !OpensEntry(filter, l) ==> ParseStep(filter, run, st, l) == Ok(st.(section := None))
  {
  }

  /** `SSLType` sets the security mode through the `ssltype2sec` table, fails on
      any other value, and fills in the port only when none was set before. */
  lemma SslTypeLine(filter: Filter, run: string -> Option<string>, st: ParseState, l: Line)
    requires st.Valid() && Active(st.section)
    requires !Skipped(l) && Lower(l.tokens[0]) == "ssltype"
    ensures var security := SecurityOf(Lower(l.tokens[1]));
      security.None? <==> ParseStep(filter, run, st, l) == Err(UnknownSslType(l.tokens[1]))
    ensures SecurityOf(Lower(l.tokens[1])).Some? ==>
      var name := st.section.value;
      var before := st.conf.values[name];
      var r := ParseStep(filter, run, st, l);
      && r.Ok? && r.value.section == st.section && r.value.conf.keys == st.conf.keys
      && r.value.conf.values == st.conf.values[name := r.value.conf.values[name]]
      && r.value.conf.values[name].security == SecurityOf(Lower(l.tokens[1]))
      && r.value.conf.values[name].port ==
           (if before.port.Some? then before.port
            else Some(PortNumber(if Lower(l.tokens[1]) == "imaps" then 993 else 143)))
  {
    assert "ssltype" !in SectionKeywords;
  }

  /** `PassCmd` runs its argument without a leading `+` and stores the output
      without its trailing newline; an empty argument, a failing command and
      empty output are errors. */
  lemma PassCmdLine(filter: Filter, run: string -> Option<string>, st: ParseState, l: Line)
    requires st.Valid() && Active(st.section)
    requires !Skipped(l) && Lower(l.tokens[0]) == "passcmd"
    ensures l.tokens[1] == "" ==> ParseStep(filter, run, st, l) == Err(EmptyPassCmd)
    ensures l.tokens[1] != "" ==>
      var command := StripPlus(l.tokens[1]);
      var r := ParseStep(filter, run, st, l);
      && (run(command).None? ==> r == Err(PassCmdFailed(command)))
      && (run(command) == Some("") ==> r == Err(EmptyPassCmdOutput(command)))
      && (run(command).Some? && run(command).value != "" ==>
            && r.Ok? && r.value.section == st.section
            && r.value.conf.values == st.conf.values[st.section.value :=
                 st.conf.values[st.section.value].(passwd := Some(Chomp(run(command).value)))])
  {
    assert "passcmd" !in SectionKeywords;
  }

  /** Inside an active section, `Host`, `Port`, `User`, `Pass` and
      `CertificateFile` store their argument in the current entry and change
      nothing else. */
  lemma PlainSettingLine(filter: Filter, run: string -> Option<string>, st: ParseState, l: Line)
    requires st.Valid() && Active(st.section) && !Skipped(l)
    ensures var name, arg := st.section.value, l.tokens[1];
      var e := st.conf.values[name];
      var keyword := Lower(l.tokens[0]);
      && (keyword == "host" ==> ParseStep(filter, run, st, l) == Ok(st.(conf := st.conf.Put(name, e.(server := Some(arg))))))
      && (keyword == "port" ==> ParseStep(filter, run, st, l) == Ok(st.(conf := st.conf.Put(name, e.(port := Some(PortText(arg)))))))
      && (keyword == "user" ==> ParseStep(filter, run, st, l) == Ok(st.(conf := st.conf.Put(name, e.(user := Some(arg))))))
      && (keyword == "pass" ==> ParseStep(filter, run, st, l) == Ok(st.(conf := st.conf.Put(name, e.(passwd := Some(arg))))))
      && (keyword == "certificatefile" ==> ParseStep(filter, run, st, l) == Ok(st.(conf := st.conf.Put(name, e.(certfile := Some(arg))))))
  {
  }

  /** Keywords are matched case-insensitively: two lines that differ only in
      the case of their keyword do the same thing. */
  lemma KeywordCaseIgnored(filter: Filter, run: string -> Option<string>, st: ParseState, l1: Line, l2: Line)
    requires st.Valid()
    requires IsComment(l1) == IsComment(l2) && |l1.tokens| == |l2.tokens| > 1
    requires Lower(l1.tokens[0]) == Lower(l2.tokens[0]) && l1.tokens[1] == l2.tokens[1]
    ensures ParseStep(filter, run, st, l1) == ParseStep(filter, run, st, l2)
  {
  }

  // ---------------------------------------------------------------------
  // `generate`

  predicate IsHeader(l: Line)
  {
    !IsComment(l) && |l.tokens| > 0 && Lower(l.tokens[0]) in SectionKeywords
  }

  predicate IsPassCmd(l: Line)
  {
    !IsComment(l) && |l.tokens| > 0 && Lower(l.tokens[0]) == "passcmd"
  }

  /** A header of an IMAP section whose name has a password. */
  predicate OpensKnown(passwords: map<string, string>, l: Line)
  {
    IsHeader(l) && Lower(l.tokens[0]) in ImapKeywords && |l.tokens| > 1 && l.tokens[1] in passwords
  }

  /** The section `generate` is in after the given lines. */
  function SectionAfter(passwords: map<string, string>, lines: seq<Line>): (s: Option<string>)
    ensures s.Some? ==> s.value in passwords
    decreases |lines|
  {
    if lines == [] then None
    else
      var last := lines[|lines| - 1];
      if IsHeader(last) then (if OpensKnown(passwords, last) then Some(last.tokens[1]) else None)
      else SectionAfter(passwords, lines[..|lines| - 1])
  }

  /** The output line for a non-comment input line. */
  function Rewrite(passwords: map<string, string>, section: Option<string>, l: Line): string
    requires section.Some? ==> section.value in passwords
  {
    if IsPassCmd(l) && Active(section) then "pass " + passwords[section.value] + "\n" else l.raw
  }

  /** The non-comment lines, in order. */
  function Kept(lines: seq<Line>): (r: seq<Line>)
    ensures |r| <= |lines|
    decreases |lines|
  {
    if lines == [] then []
    else
      var last := lines[|lines| - 1];
      Kept(lines[..|lines| - 1]) + (if IsComment(last) then [] else [last])
  }

  /** The specification of `generate`: what it writes, chunk by chunk. */
  function Generated(passwords: map<string, string>, lines: seq<Line>): seq<string>
    decreases |lines|
  {
    if lines == [] then []
    else
      var init, last := lines[..|lines| - 1], lines[|lines| - 1];
      Generated(passwords, init) + (if IsComment(last) then [] else [Rewrite(passwords, SectionAfter(passwords, init), last)])
  }

  /** `generate` writing to a stream: the stream is the sequence of written chunks. */
  method Generate(passwords: map<string, string>, lines: seq<Line>) returns (out: seq<string>)
    ensures out == Generated(passwords, lines)
  {
    var section: Option<string> := None;
    out := [];
    var i := 0;
    while i < |lines|
      invariant 0 <= i <= |lines|
      invariant section == SectionAfter(passwords, lines[..i])
      invariant out == Generated(passwords, lines[..i])
    {
      var l := lines[i];
      assert lines[..i + 1][..i] == lines[..i];
      if IsComment(l) {
        i := i + 1;
        continue;
      }
      if |l.tokens| == 0 {
        out := out + [l.raw];
        i := i + 1;
        continue;
      }
      var keyword := Lower(l.tokens[0]);
      if keyword in SectionKeywords {
        if keyword in ImapKeywords && |l.tokens| > 1 && l.tokens[1] in passwords {
          section := Some(l.tokens[1]);
        } else {
          section := None;
        }
        out := out + [l.raw];
      } else if keyword == "passcmd" && Active(section) {
        out := out + ["pass " + passwords[section.value] + "\n"];
      } else {
        out := out + [l.raw];
      }
      i := i + 1;
    }
    assert lines[..|lines|] == lines;
  }

  // ---------------------------------------------------------------------
  // Properties of `generate`

  /** One output line per non-comment input line, in the same order: the line
      for input line `i` is the rewrite of that line in the section it lies in. */
  lemma {:induction false} GeneratedLineByLine(passwords: map<string, string>, lines: seq<Line>)
    ensures |Generated(passwords, lines)| == |Kept(lines)|
    ensures forall i :: 0 <= i < |lines| && !IsComment(lines[i]) ==>
      |Kept(lines[..i])| < |Generated(passwords, lines)| &&
      Generated(passwords, lines)[|Kept(lines[..i])|] == Rewrite(passwords, SectionAfter(passwords, lines[..i]), lines[i])
    decreases |lines|
  {
    if lines != [] {
      var init := lines[..|lines| - 1];
      GeneratedLineByLine(passwords, init);
      forall i | 0 <= i < |lines| && !IsComment(lines[i])
        ensures |Kept(lines[..i])| < |Generated(passwords, lines)|
        ensures Generated(passwords, lines)[|Kept(lines[..i])|] == Rewrite(passwords, SectionAfter(passwords, lines[..i]), lines[i])
      {
        if i < |lines| - 1 {
          assert lines[..i] == init[..i] && lines[i] == init[i];
        } else {
          assert lines[..i] == init;
        }
      }
    }
  }

  /** The only lines that change are `PassCmd` lines, and each becomes a
      literal `pass` line carrying the password of a named section. */
  lemma {:induction false} OnlyPassCmdLinesChange(passwords: map<string, string>, lines: seq<Line>)
    ensures |Generated(passwords, lines)| == |Kept(lines)|
    ensures forall j :: 0 <= j < |Kept(lines)| ==>
      || Generated(passwords, lines)[j] == Kept(lines)[j].raw
      || (IsPassCmd(Kept(lines)[j]) &&
          exists s :: s in passwords && s != "" && Generated(passwords, lines)[j] == "pass " + passwords[s] + "\n")
    decreases |lines|
  {
    GeneratedLineByLine(passwords, lines);
    if lines != [] {
      var init := lines[..|lines| - 1];
      OnlyPassCmdLinesChange(passwords, init);
      var last := lines[|lines| - 1];
      if !IsComment(last) {
        var s := SectionAfter(passwords, init);
        var j := |Kept(init)|;
        assert Kept(lines)[j] == last;
        if IsPassCmd(last) && Active(s) {
          assert Generated(passwords, lines)[j] == "pass " + passwords[s.value] + "\n";
        }
      }
    }
  }

  /** A header is the last one before the end of `lines`. */
  ghost predicate LastHeaderAt(lines: seq<Line>, h: int)
  {
    0 <= h < |lines| && IsHeader(lines[h]) && forall m :: h < m < |lines| ==> !IsHeader(lines[m])
  }

  /** The section in force is set by the last header alone: its name when that
      header is an IMAP section with a password, and none otherwise or when
      there is no header. */
  lemma {:induction false} SectionIsLastHeader(passwords: map<string, string>, lines: seq<Line>)
    ensures forall h :: LastHeaderAt(lines, h) ==>
      SectionAfter(passwords, lines) == if OpensKnown(passwords, lines[h]) then Some(lines[h].tokens[1]) else None
    ensures (forall m :: 0 <= m < |lines| ==> !IsHeader(lines[m])) ==> SectionAfter(passwords, lines) == None
    decreases |lines|
  {
    if lines != [] {
      var init := lines[..|lines| - 1];
      SectionIsLastHeader(passwords, init);
      forall h | LastHeaderAt(lines, h)
        ensures SectionAfter(passwords, lines) == if OpensKnown(passwords, lines[h]) then Some(lines[h].tokens[1]) else None
      {
        if h < |lines| - 1 {
          assert !IsHeader(lines[|lines| - 1]);
          assert init[h] == lines[h];
          assert LastHeaderAt(init, h);
        }
      }
      if forall m :: 0 <= m < |lines| ==> !IsHeader(lines[m]) {
        assert !IsHeader(lines[|lines| - 1]);
        assert forall m :: 0 <= m < |init| ==> init[m] == lines[m];
      }
    }
  }

  function Raws(lines: seq<Line>): (r: seq<string>)
    ensures |r| == |lines| && forall i :: 0 <= i < |lines| ==> r[i] == lines[i].raw
  {
    seq(|lines|, i requires 0 <= i < |lines| => lines[i].raw)
  }

  /** With no passwords, `generate` reproduces the file without its comment lines. */
  lemma {:induction false} NoPasswordsKeepsFile(lines: seq<Line>)
    ensures Generated(map[], lines) == Raws(Kept(lines))
    decreases |lines|
  {
    if lines != [] {
      var init := lines[..|lines| - 1];
      NoPasswordsKeepsFile(init);
      var last := lines[|lines| - 1];
      if !IsComment(last) {
        assert Kept(lines) == Kept(init) + [last];
        assert Raws(Kept(lines)) == Raws(Kept(init)) + [last.raw];
      } else {
        assert Kept(lines) == Kept(init) + [];
        assert Kept(init) + [] == Kept(init);
      }
    }
  }

  // ---------------------------------------------------------------------
  // The pure part of `call_mbsync`

  const Mbsync: string := "/usr/bin/mbsync"
  const DefaultParams: seq<string> := ["-a"]

  /** The password map: every entry's `passwd`, or the first key without one
      (`conf[k]["passwd"]` raises). */
  method Passwords(conf: Conf) returns (r: Result<map<string, string>, string>)
    requires conf.Valid()
    ensures r.Ok? <==> forall k :: k in conf.values ==> conf.values[k].passwd.Some?
    ensures r.Ok? ==> r.value.Keys == conf.values.Keys
    ensures r.Ok? ==> forall k :: k in r.value ==> conf.values[k].passwd == Some(r.value[k])
    ensures r.Err? ==> r.error in conf.values && conf.values[r.error].passwd.None?
  {
    var passwords: map<string, string> := map[];
    for i := 0 to |conf.keys|
      invariant passwords.Keys == set j | 0 <= j < i :: conf.keys[j]
      invariant forall k :: k in passwords ==> k in conf.values && conf.values[k].passwd == Some(passwords[k])
      invariant forall j :: 0 <= j < i ==> conf.values[conf.keys[j]].passwd.Some?
    {
      var k := conf.keys[i];
      var e := conf.values[k];
      if e.passwd.None? {
        return Err(k);
      }
      passwords := passwords[k := e.passwd.value];
    }
    assert forall k :: k in conf.values ==> exists j :: 0 <= j < |conf.keys| && conf.keys[j] == k;
    return Ok(passwords);
  }

  /** The mbsync command line: the binary, its configuration source, then the parameters. */
  function MbsyncArgv(fifo: string, params: seq<string>): (argv: seq<string>)
    ensures |argv| == 3 + |params|
    ensures argv[0] == Mbsync && argv[1] == "-c" && argv[2] == fifo
    ensures argv[3..] == params
  {
    [Mbsync, "-c", fifo] + params
  }

  /** What `call_mbsync` hands to the outside world: the command line and the
      document written into the named pipe. */
  datatype Invocation = Invocation(passwords: map<string, string>, argv: seq<string>, document: seq<string>)

  /** `call_mbsync` without the pipe, the threads and the process: `fifo` is
      the name of the pipe, `lines` the configuration file. */
  method CallMbsync(conf: Conf, lines: seq<Line>, params: seq<string>, fifo: string) returns (r: Result<Invocation, string>)
    requires conf.Valid()
    ensures r.Ok? <==> forall k :: k in conf.values ==> conf.values[k].passwd.Some?
    ensures r.Ok? ==>
      && r.value.passwords.Keys == conf.values.Keys
      && (forall k :: k in r.value.passwords ==> conf.values[k].passwd == Some(r.value.passwords[k]))
      && r.value.argv == [Mbsync, "-c", fifo] + params
      && r.value.document == Generated(r.value.passwords, lines)
  {
    var passwords := Passwords(conf);
    if passwords.Err? {
      return Err(passwords.error);
    }
    var document := Generate(passwords.value, lines);
    var args := [Mbsync, "-c", fifo];
    args := args + params;
    return Ok(Invocation(passwords.value, args, document));
  }
}
