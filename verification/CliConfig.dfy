/** The WireGuard configuration the CLI writes when it connects, and the parser the tunnel reads it with. */
module CliConfig {
  import opened Text

  datatype Config = Config(privateKey: string, address: string, dns: string, serverPubkey: string, endpoint: string,
                           allowedIPs: seq<string>, presharedKey: string)

  const EMPTY := Config("", "", "", "", "", [], "")

  // bufio.MaxScanTokenSize: the scanner gives up at a line that fills its buffer, counted in bytes.
  const SCANNER_LIMIT := 65536

  // What the API answers to a connection request.
  datatype Answer = Answer(serverEndpoint: string, serverPubkey: string, assignedIP: string, dnsServer: string,
                           presharedKey: string, allowedIPs: seq<string>, clientAllowedIPs: seq<string>)

  function FirstNonEmpty(lists: seq<seq<string>>): seq<string> {
    if lists == [] then [] else if lists[0] != [] then lists[0] else FirstNonEmpty(lists[1..])
  }

  function Connected(privateKey: string, answer: Answer): Config {
    Config(privateKey, answer.assignedIP, if answer.dnsServer == "" then "1.1.1.1" else answer.dnsServer,
           answer.serverPubkey, answer.serverEndpoint,
           FirstNonEmpty([answer.clientAllowedIPs, answer.allowedIPs, ["0.0.0.0/0", "::/0"]]), answer.presharedKey)
  }

  method Connect(privateKey: string, answer: Answer) returns (c: Config)
    ensures c == Connected(privateKey, answer)
    ensures c.privateKey == privateKey && c.address == answer.assignedIP && c.serverPubkey == answer.serverPubkey
    ensures c.endpoint == answer.serverEndpoint && c.presharedKey == answer.presharedKey
    ensures c.dns == if answer.dnsServer == "" then "1.1.1.1" else answer.dnsServer
    ensures c.allowedIPs == if answer.clientAllowedIPs != [] then answer.clientAllowedIPs
                            else if answer.allowedIPs != [] then answer.allowedIPs else ["0.0.0.0/0", "::/0"]
  {
    var allowed := answer.clientAllowedIPs;
    if |allowed| == 0 {
      allowed := answer.allowedIPs;
    }
    if |allowed| == 0 {
      allowed := ["0.0.0.0/0", "::/0"];
    }
    var dns := answer.dnsServer;
    if dns == "" {
      dns := "1.1.1.1";
    }
    c := Config(privateKey, answer.assignedIP, dns, answer.serverPubkey, answer.serverEndpoint, allowed,
                answer.presharedKey);
    ghost var lists := [answer.clientAllowedIPs, answer.allowedIPs, ["0.0.0.0/0", "::/0"]];
    assert lists[1..][1..] == lists[2..];
    assert FirstNonEmpty(lists[2..]) == lists[2];
    assert FirstNonEmpty(lists[1..]) == if lists[1] != [] then lists[1] else lists[2];
    assert FirstNonEmpty(lists) == allowed;
  }

  datatype Line = Heading(text: string) | Setting(key: string, value: string) {
    function Show(): string {
      if Heading? then text else key + " = " + value
    }

    function Terminated(): string {
      Show() + "\n"
    }
  }

  function Row(key: string, value: string): string {
    Setting(key, value).Terminated()
  }

  function InterfaceSection(c: Config): string {
    Heading("[Interface]").Terminated() + Row("PrivateKey", c.privateKey) + Row("Address", c.address) +
    Row("DNS", c.dns) + Heading("").Terminated()
  }

  function PeerSection(c: Config): string {
    Heading("[Peer]").Terminated() + Row("PublicKey", c.serverPubkey) +
    (if c.presharedKey == "" then "" else Row("PresharedKey", c.presharedKey)) +
    Row("AllowedIPs", Join(c.allowedIPs, ", ")) + Row("Endpoint", c.endpoint) + Row("PersistentKeepalive", "25")
  }

  function Render(c: Config): string {
    InterfaceSection(c) + PeerSection(c)
  }

  lemma RowIsText(key: string, value: string, prefix: string)
    requires prefix == key + " = "
    ensures Row(key, value) == prefix + value + "\n"
  {
  }

  lemma InterfaceIsText(c: Config)
    ensures InterfaceSection(c) ==
      "[Interface]\n" + ("PrivateKey = " + c.privateKey + "\n") + ("Address = " + c.address + "\n") +
      ("DNS = " + c.dns + "\n") + "\n"
  {
    RowIsText("PrivateKey", c.privateKey, "PrivateKey = ");
    RowIsText("Address", c.address, "Address = ");
    RowIsText("DNS", c.dns, "DNS = ");
    assert Heading("[Interface]").Terminated() == "[Interface]\n" && Heading("").Terminated() == "\n";
    hide Row, Line.Terminated;
  }

  lemma PeerIsText(c: Config)
    ensures PeerSection(c) ==
      "[Peer]\n" + ("PublicKey = " + c.serverPubkey + "\n") +
      (if c.presharedKey == "" then "" else "PresharedKey = " + c.presharedKey + "\n") +
      ("AllowedIPs = " + Join(c.allowedIPs, ", ") + "\n") + ("Endpoint = " + c.endpoint + "\n") +
      "PersistentKeepalive = 25\n"
  {
    RowIsText("PublicKey", c.serverPubkey, "PublicKey = ");
    RowIsText("PresharedKey", c.presharedKey, "PresharedKey = ");
    RowIsText("AllowedIPs", Join(c.allowedIPs, ", "), "AllowedIPs = ");
    RowIsText("Endpoint", c.endpoint, "Endpoint = ");
    RowIsText("PersistentKeepalive", "25", "PersistentKeepalive = ");
    assert "PersistentKeepalive = " + "25" + "\n" == "PersistentKeepalive = 25\n";
    assert Heading("[Peer]").Terminated() == "[Peer]\n";
    hide Row, Line.Terminated, Join;
  }

  /** The file, letter by letter. */
  lemma RenderIsText(c: Config)
    ensures Render(c) ==
      ("[Interface]\n" + ("PrivateKey = " + c.privateKey + "\n") + ("Address = " + c.address + "\n") +
       ("DNS = " + c.dns + "\n") + "\n") +
      ("[Peer]\n" + ("PublicKey = " + c.serverPubkey + "\n") +
       (if c.presharedKey == "" then "" else "PresharedKey = " + c.presharedKey + "\n") +
       ("AllowedIPs = " + Join(c.allowedIPs, ", ") + "\n") + ("Endpoint = " + c.endpoint + "\n") +
       "PersistentKeepalive = 25\n")
  {
    hide InterfaceSection, PeerSection, Join;
    InterfaceIsText(c);
    PeerIsText(c);
  }

  // ---- the parser ----

  function DropCR(s: string): string {
    if s != "" && s[|s| - 1] == '\r' then s[..|s| - 1] else s
  }

  function RawLines(text: string): seq<string> {
    var pieces := Split(text, '\n');
    if pieces[|pieces| - 1] == "" then pieces[..|pieces| - 1] else pieces
  }

  // The scanner's tokens: everything before the first line that is too long.
  function Scanned(raw: seq<string>): seq<string> {
    if raw == [] || Bytes(raw[0]) >= SCANNER_LIMIT then [] else [DropCR(raw[0])] + Scanned(raw[1..])
  }

  // strings.SplitN(line, "=", 2)
  function Cut(s: string): Option<(string, string)> {
    if s == "" then None
    else if s[0] == '=' then Some(("", s[1..]))
    else
      match Cut(s[1..])
      case Some((before, after)) => Some(([s[0]] + before, after))
      case None => None
  }

  function TrimAll(parts: seq<string>): (r: seq<string>)
    ensures |r| == |parts|
  {
    seq(|parts|, i requires 0 <= i < |parts| => Trim(parts[i]))
  }

  function Entries(value: string): seq<string> {
    TrimAll(Split(value, ','))
  }

  function Put(c: Config, key: string, value: string): Config {
    if key == "PrivateKey" then c.(privateKey := value)
    else if key == "Address" then c.(address := value)
    else if key == "DNS" then c.(dns := value)
    else if key == "PublicKey" then c.(serverPubkey := value)
    else if key == "Endpoint" then c.(endpoint := value)
    else if key == "AllowedIPs" then c.(allowedIPs := c.allowedIPs + Entries(value))
    else if key == "PresharedKey" then c.(presharedKey := value)
    else c
  }

  function ParseLine(c: Config, raw: string): Config {
    var line := Trim(raw);
    if line == "" || line[0] == '#' || line[0] == '[' then c
    else
      match Cut(line)
      case Some((before, after)) => Put(c, Trim(before), Trim(after))
      case None => c
  }

  function ParseLines(c: Config, lines: seq<string>): Config
    decreases |lines|
  {
    if lines == [] then c else ParseLines(ParseLine(c, lines[0]), lines[1..])
  }

  function Parsed(text: string): Config {
    ParseLines(EMPTY, Scanned(RawLines(text)))
  }

  method AppendEntries(list: seq<string>, value: string) returns (r: seq<string>)
    ensures r == list + Entries(value)
  {
    hide Trim, Split;
    var parts := Split(value, ',');
    r := list;
    for i := 0 to |parts|
      invariant r == list + TrimAll(parts[..i])
    {
      r := r + [Trim(parts[i])];
      assert TrimAll(parts[..i + 1]) == TrimAll(parts[..i]) + [Trim(parts[i])];
    }
    assert parts[..|parts|] == parts;
  }

  // The parser's switch over the key.
  method Assign(c: Config, key: string, value: string) returns (cfg: Config)
    ensures cfg == Put(c, key, value)
  {
    hide Entries;
    cfg := c;
    match key {
      case "PrivateKey" => cfg := cfg.(privateKey := value);
      case "Address" => cfg := cfg.(address := value);
      case "DNS" => cfg := cfg.(dns := value);
      case "PublicKey" => cfg := cfg.(serverPubkey := value);
      case "Endpoint" => cfg := cfg.(endpoint := value);
      case "AllowedIPs" =>
        var list := AppendEntries(cfg.allowedIPs, value);
        cfg := cfg.(allowedIPs := list);
      case "PresharedKey" => cfg := cfg.(presharedKey := value);
      case _ =>
    }
  }

  method ParseConfig(text: string) returns (cfg: Config)
    ensures cfg == Parsed(text)
  {
    hide Put, Trim, Cut;
    cfg := EMPTY;
    var lines := Scanned(RawLines(text));
    var i := 0;
    while i < |lines|
      invariant 0 <= i <= |lines|
      invariant Parsed(text) == ParseLines(cfg, lines[i..])
    {
      ghost var before := cfg;
      var line := Trim(lines[i]);
      assert lines[i..][1..] == lines[i + 1..];
      if line != "" && line[0] != '#' && line[0] != '[' {
        var parts := Cut(line);
        if parts.Some? {
          cfg := Assign(cfg, Trim(parts.value.0), Trim(parts.value.1));
        }
      }
      assert cfg == ParseLine(before, lines[i]);
      i := i + 1;
    }
  }

  // ---- what survives printing and parsing ----

  // A value that a line can carry: no surrounding blanks and no line break.
  predicate Clean(s: string) {
    Trimmed(s) && '\n' !in s
  }

  predicate CleanEntry(s: string) {
    Clean(s) && ',' !in s
  }

  predicate CleanList(list: seq<string>) {
    forall i :: 0 <= i < |list| ==> CleanEntry(list[i])
  }

  predicate CleanConfig(c: Config) {
    && Clean(c.privateKey) && Clean(c.address) && Clean(c.dns) && Clean(c.serverPubkey) && Clean(c.endpoint)
    && Clean(c.presharedKey)
    && CleanList(c.allowedIPs)
  }

  function InterfaceLines(c: Config): seq<Line> {
    [Heading("[Interface]"), Setting("PrivateKey", c.privateKey), Setting("Address", c.address), Setting("DNS", c.dns),
     Heading("")]
  }

  function PeerLines(c: Config): seq<Line> {
    [Heading("[Peer]"), Setting("PublicKey", c.serverPubkey)] +
    (if c.presharedKey == "" then [] else [Setting("PresharedKey", c.presharedKey)]) +
    [Setting("AllowedIPs", Join(c.allowedIPs, ", ")), Setting("Endpoint", c.endpoint), Setting("PersistentKeepalive", "25")]
  }

  function Lines(c: Config): seq<Line> {
    InterfaceLines(c) + PeerLines(c)
  }

  function Unlines(lines: seq<Line>): string {
    if lines == [] then "" else lines[0].Terminated() + Unlines(lines[1..])
  }

  function Shown(lines: seq<Line>): seq<string> {
    seq(|lines|, i requires 0 <= i < |lines| => lines[i].Show())
  }

  lemma {:induction false} UnlinesConcat(ls: seq<Line>, rest: seq<Line>)
    ensures Unlines(ls + rest) == Unlines(ls) + Unlines(rest)
  {
    hide Line.Terminated;
    if ls == [] {
      assert ls + rest == rest;
    } else {
      assert (ls + rest)[1..] == ls[1..] + rest;
      UnlinesConcat(ls[1..], rest);
      Associative(ls[0].Terminated(), Unlines(ls[1..]), Unlines(rest));
    }
  }

  lemma OneMoreLine(ls: seq<Line>, l: Line)
    ensures Unlines(ls + [l]) == Unlines(ls) + l.Terminated()
  {
    UnlinesConcat(ls, [l]);
    assert [l][1..] == [];
  }

  lemma EmptyUnlines()
    ensures Unlines([]) == ""
  {
  }

  lemma InterfaceIsItsLines(c: Config)
    ensures InterfaceSection(c) == Unlines(InterfaceLines(c))
  {
    hide Unlines, Line.Terminated;
    EmptyUnlines();
    var l1 := [] + [Heading("[Interface]")];
    var l2 := l1 + [Setting("PrivateKey", c.privateKey)];
    var l3 := l2 + [Setting("Address", c.address)];
    var l4 := l3 + [Setting("DNS", c.dns)];
    OneMoreLine([], Heading("[Interface]"));
    OneMoreLine(l1, Setting("PrivateKey", c.privateKey));
    OneMoreLine(l2, Setting("Address", c.address));
    OneMoreLine(l3, Setting("DNS", c.dns));
    OneMoreLine(l4, Heading(""));
    assert InterfaceLines(c) == l4 + [Heading("")];
  }

  lemma PeerIsItsLines(c: Config)
    ensures PeerSection(c) == Unlines(PeerLines(c))
  {
    hide Unlines, Join, Line.Terminated;
    EmptyUnlines();
    var l1 := [] + [Heading("[Peer]")];
    var l2 := l1 + [Setting("PublicKey", c.serverPubkey)];
    var l3 := if c.presharedKey == "" then l2 else l2 + [Setting("PresharedKey", c.presharedKey)];
    var l4 := l3 + [Setting("AllowedIPs", Join(c.allowedIPs, ", "))];
    var l5 := l4 + [Setting("Endpoint", c.endpoint)];
    OneMoreLine([], Heading("[Peer]"));
    OneMoreLine(l1, Setting("PublicKey", c.serverPubkey));
    OneMoreLine(l2, Setting("PresharedKey", c.presharedKey));
    OneMoreLine(l3, Setting("AllowedIPs", Join(c.allowedIPs, ", ")));
    OneMoreLine(l4, Setting("Endpoint", c.endpoint));
    OneMoreLine(l5, Setting("PersistentKeepalive", "25"));
    assert PeerLines(c) == l5 + [Setting("PersistentKeepalive", "25")];
  }

  lemma RenderIsItsLines(c: Config)
    ensures Render(c) == Unlines(Lines(c))
  {
    InterfaceIsItsLines(c);
    PeerIsItsLines(c);
    hide InterfaceSection, PeerSection, InterfaceLines, PeerLines;
    UnlinesConcat(InterfaceLines(c), PeerLines(c));
  }

  // Splitting a text into lines undoes joining them.
  lemma {:induction false} RawLinesOfUnlines(lines: seq<Line>)
    requires forall i :: 0 <= i < |lines| ==> '\n' !in lines[i].Show()
    ensures Split(Unlines(lines), '\n') == Shown(lines) + [""]
    ensures RawLines(Unlines(lines)) == Shown(lines)
  {
    hide Line.Show;
    if lines == [] {
    } else {
      RawLinesOfUnlines(lines[1..]);
      SplitHead(lines[0].Show(), Unlines(lines[1..]), '\n');
      assert lines[0].Show() + ['\n'] + Unlines(lines[1..]) == Unlines(lines);
      assert Shown(lines) == [lines[0].Show()] + Shown(lines[1..]);
    }
  }

  lemma FirstRawLine(line: string, rest: string)
    requires '\n' !in line && rest != ""
    ensures RawLines(line + "\n" + rest) == [line] + RawLines(rest)
  {
    SplitHead(line, rest, '\n');
    assert line + ['\n'] + rest == line + "\n" + rest;
    SomePieces(rest);
    hide Split;
  }

  lemma SomePieces(s: string)
    requires s != ""
    ensures Split(s, '\n')[|Split(s, '\n')| - 1] == "" ==> |Split(s, '\n')| > 1
  {
  }

  lemma OneRawLine(line: string)
    requires '\n' !in line && line != ""
    ensures RawLines(line) == [line]
  {
    SplitHead(line, "", '\n');
  }

  // A last line without a line break is read as well.
  lemma {:induction false} UnterminatedLine(lines: seq<Line>, last: string)
    requires forall i :: 0 <= i < |lines| ==> '\n' !in lines[i].Show()
    requires last != "" && '\n' !in last
    ensures RawLines(Unlines(lines) + last) == Shown(lines) + [last]
  {
    hide Line.Show, RawLines;
    if lines == [] {
      OneRawLine(last);
      assert Unlines(lines) + last == last;
    } else {
      UnterminatedLine(lines[1..], last);
      var line, rest := lines[0].Show(), Unlines(lines[1..]);
      FirstRawLine(line, rest + last);
      Associative(line + "\n", rest, last);
      assert Shown(lines) == [line] + Shown(lines[1..]);
      hide Unlines, Shown;
    }
  }

  // ---- one line ----

  lemma {:induction false} CutAtFirst(before: string, after: string)
    requires '=' !in before
    ensures Cut(before + "=" + after) == Some((before, after))
  {
    var s := before + "=" + after;
    if before == "" {
      assert s[1..] == after;
    } else {
      assert s[1..] == before[1..] + "=" + after;
      CutAtFirst(before[1..], after);
      assert [before[0]] + before[1..] == before;
    }
  }

  predicate CleanKey(key: string) {
    key != "" && Clean(key) && '=' !in key && key[0] != '#' && key[0] != '['
  }

  // A list that ends in an empty entry is printed with one blank at the end of its line.
  predicate Printable(value: string) {
    Clean(value) || (|value| > 1 && value[|value| - 1] == ' ' && Clean(value[..|value| - 1]))
  }

  // A line the renderer writes.
  predicate CleanLine(l: Line) {
    match l
    case Heading(text) => text == "" || text == "[Interface]" || text == "[Peer]"
    case Setting(key, value) => CleanKey(key) && Printable(value)
  }

  function Apply(c: Config, l: Line): Config {
    if l.Heading? then c else Put(c, l.key, Trim(l.value))
  }

  lemma SettingIsTrimmedTo(key: string, value: string)
    requires CleanKey(key) && Clean(value)
    ensures var line := Setting(key, value).Show();
      DropCR(line) == line && Trim(line) == key + " " + "=" + (if value == "" then "" else " " + value)
  {
    hide Trim;
    var line := Setting(key, value).Show();
    if value == "" {
      var kept := key + " =";
      assert line == kept + " ";
      assert kept[0] == key[0] && kept[|kept| - 1] == '=';
      TrimDropsTrailingSpace(kept);
      assert kept == key + " " + "=" + "";
    } else {
      assert line[0] == key[0] && line[|line| - 1] == value[|value| - 1];
      TrimKeepsTrimmed(line);
      assert line == key + " " + "=" + (" " + value);
    }
  }

  lemma PairIsPut(c: Config, raw: string, before: string, after: string)
    requires var line := Trim(raw);
      line != "" && line[0] != '#' && line[0] != '[' && Cut(line) == Some((before, after))
    ensures ParseLine(c, raw) == Put(c, Trim(before), Trim(after))
  {
    hide Trim, Cut, Put;
  }

  lemma {:induction false} NothingToCut(s: string)
    requires '=' !in s
    ensures Cut(s) == None
  {
    if s == "" {
    } else {
      assert forall c :: c in s[1..] ==> c in s;
      NothingToCut(s[1..]);
    }
  }

  lemma BlankIsTrimmed(s: string)
    requires AllBlank(s)
    ensures Trim(s) == ""
  {
    BlanksTrimLeft(s, "");
    assert s + "" == s;
  }

  /** Every line that is no setting is skipped: one of blanks, a comment, a heading, and one without '='. */
  lemma LineIsSkipped(c: Config, raw: string, left: string, word: string, right: string)
    requires Padded(raw, left, word, right) && Trimmed(word)
    requires word == "" || word[0] == '#' || word[0] == '[' || '=' !in word
    ensures ParseLine(c, raw) == c
  {
    if word == "" {
      assert AllBlank(raw);
      BlankIsTrimmed(raw);
      hide Put, Cut, Trim;
    } else {
      PaddedIsTrimmedTo(raw, left, word, right);
      hide Put, Cut, Trim, Trimmed, Padded;
      if '=' !in word { NothingToCut(word); }
    }
  }

  lemma BlanksHold(s: string, word: string)
    requires AllBlank(s) && '=' !in word
    ensures '=' !in word + s
  {
  }

  // The setting without the blanks around it.
  lemma SettingWord(key: string, before: string, after: string, value: string) returns (word: string, tail: string)
    requires CleanKey(key) && Trimmed(value)
    ensures tail == (if value == "" then "" else after + value) && word == key + before + "=" + tail
    ensures word[0] == key[0] && Trimmed(word)
  {
    tail := if value == "" then "" else after + value;
    word := key + before + "=" + tail;
    assert word[|word| - 1] == if value == "" then '=' else value[|value| - 1];
  }

  /** A setting may have any blanks around its key and its value, and its value any '='. */
  lemma SettingIsRead(c: Config, raw: string, key: string, value: string,
                      left: string, before: string, after: string, right: string)
    requires CleanKey(key) && Trimmed(value)
    requires AllBlank(left) && AllBlank(before) && AllBlank(after) && AllBlank(right)
    requires raw == left + (key + before + "=" + after + value) + right
    ensures ParseLine(c, raw) == Put(c, key, value)
  {
    hide IsSpace, Put, Cut, Trim, ParseLine, AllBlank;
    var word, tail := SettingWord(key, before, after, value);
    var rest := if value == "" then after + right else right;
    assert AllBlank(rest) by { BlanksConcat(after, right); }
    assert raw == left + word + rest;
    PaddedIsTrimmedTo(raw, left, word, rest);
    BlanksHold(before, key);
    CutAtFirst(key + before, tail);
    NoBlanks();
    assert key + before == "" + key + before;
    PaddedIsTrimmedTo(key + before, "", key, before);
    if value == "" {
      BlankIsTrimmed("");
    } else {
      assert after + value == after + value + "";
      PaddedIsTrimmedTo(after + value, after, value, "");
    }
    PairIsPut(c, raw, key + before, tail);
  }

  lemma SidesAreTrimmed(key: string, value: string)
    requires Trimmed(key) && Trimmed(value)
    ensures Trim(key + " ") == key
    ensures Trim(if value == "" then "" else " " + value) == value
  {
    TrimKeepsTrimmed("");
    hide Trim;
    TrimDropsTrailingSpace(key);
    TrimDropsLeadingSpace(value);
  }

  lemma SettingLine(c: Config, key: string, value: string)
    requires CleanKey(key) && Clean(value)
    ensures ParseLine(c, DropCR(Setting(key, value).Show())) == Put(c, key, value)
  {
    hide Trim, Trimmed, Cut, Put, ParseLine, Line.Show, DropCR;
    var before, after := key + " ", if value == "" then "" else " " + value;
    SettingIsTrimmedTo(key, value);
    CutAtFirst(before, after);
    SidesAreTrimmed(key, value);
    assert (before + "=" + after)[0] == key[0];
    hide CleanKey, Clean;
    PairIsPut(c, Setting(key, value).Show(), before, after);
  }

  lemma TrailingSpaceIsTrimmed(s: string)
    requires s != "" && !IsSpace(s[0])
    ensures Trim(s + " ") == Trim(s)
  {
    assert (s + " ")[0] == s[0];
    assert (s + " ")[..|s|] == s;
  }

  lemma SpacedSettingLine(c: Config, key: string, value: string)
    requires CleanKey(key) && Clean(value)
    ensures ParseLine(c, DropCR(Setting(key, value + " ").Show())) == Put(c, key, value)
  {
    var line := Setting(key, value).Show();
    hide Trim, Cut, Put;
    SettingLine(c, key, value);
    SettingIsTrimmedTo(key, value);
    assert line[0] == key[0];
    TrailingSpaceIsTrimmed(line);
    assert Setting(key, value + " ").Show() == line + " ";
  }

  lemma PrintableIsTrimmedTo(value: string)
    requires Printable(value)
    ensures Clean(Trim(value)) && (value == Trim(value) || value == Trim(value) + " ")
  {
    hide Trim;
    if Clean(value) {
      TrimKeepsTrimmed(value);
    } else {
      TrimDropsTrailingSpace(value[..|value| - 1]);
      assert value == value[..|value| - 1] + " ";
    }
  }

  lemma HeadingLine(c: Config, text: string)
    requires text == "" || text == "[Interface]" || text == "[Peer]"
    ensures ParseLine(c, DropCR(text)) == c
  {
    assert Trimmed(text);
    TrimKeepsTrimmed(text);
    hide Trim, Cut, Put;
  }

  lemma LineIsApplied(c: Config, l: Line)
    requires CleanLine(l)
    ensures ParseLine(c, DropCR(l.Show())) == Apply(c, l)
  {
    hide ParseLine, Put, Trim, DropCR;
    if l.Heading? {
      HeadingLine(c, l.text);
    } else {
      hide Line.Show, Clean, Printable, CleanKey;
      PrintableIsTrimmedTo(l.value);
      SettingLine(c, l.key, Trim(l.value));
      SpacedSettingLine(c, l.key, Trim(l.value));
    }
  }

  function ApplyAll(c: Config, lines: seq<Line>): Config
    decreases |lines|
  {
    if lines == [] then c else ApplyAll(Apply(c, lines[0]), lines[1..])
  }

  predicate Short(l: Line) {
    Bytes(l.Show()) < 65536
  }

  // The lines before the first that is too long.
  function Read(lines: seq<Line>): seq<Line> {
    if lines == [] || !Short(lines[0]) then [] else [lines[0]] + Read(lines[1..])
  }

  lemma {:induction false} ReadStopsAtLongLine(lines: seq<Line>)
    ensures Read(lines) <= lines
    ensures if |Read(lines)| < |lines| then !Short(lines[|Read(lines)|]) else forall l :: l in lines ==> Short(l)
  {
    hide Short;
    if lines != [] && Short(lines[0]) {
      ReadStopsAtLongLine(lines[1..]);
      assert lines == [lines[0]] + lines[1..];
    }
  }

  lemma {:induction false} LinesAreApplied(c: Config, lines: seq<Line>)
    requires forall l :: l in lines ==> CleanLine(l)
    ensures ParseLines(c, Scanned(Shown(lines))) == ApplyAll(c, Read(lines))
    decreases |lines|
  {
    hide ParseLine, Apply, CleanLine, DropCR, Line.Show;
    if lines == [] {
    } else {
      assert Shown(lines)[1..] == Shown(lines[1..]);
      if Short(lines[0]) {
        LineIsApplied(c, lines[0]);
        var next := Apply(c, lines[0]);
        LinesAreApplied(next, lines[1..]);
        assert ([DropCR(lines[0].Show())] + Scanned(Shown(lines[1..])))[1..] == Scanned(Shown(lines[1..]));
        assert ([lines[0]] + Read(lines[1..]))[1..] == Read(lines[1..]);
      }
    }
  }

  // ---- whatever the text, parsed values are clean ----

  lemma {:induction false} CutKeepsOut(s: string, c: char)
    requires c !in s && Cut(s).Some?
    ensures c !in Cut(s).value.0 && c !in Cut(s).value.1
  {
    if s[0] != '=' {
      CutKeepsOut(s[1..], c);
    }
  }

  lemma EntriesAreClean(value: string)
    requires Clean(value)
    ensures CleanList(Entries(value))
  {
    hide Trim, Split, Trimmed;
    SplitPieces(value, ',');
    var parts := Split(value, ',');
    forall i | 0 <= i < |Entries(value)|
      ensures CleanEntry(Entries(value)[i])
    {
      assert '\n' !in parts[i];
      TrimIsTrimmed(parts[i]);
      TrimKeepsOut(parts[i], ',');
      TrimKeepsOut(parts[i], '\n');
    }
  }

  lemma CleanListsConcat(a: seq<string>, b: seq<string>)
    requires CleanList(a) && CleanList(b)
    ensures CleanList(a + b)
  {
    hide CleanEntry;
  }

  lemma PutKeepsClean(c: Config, key: string, value: string)
    requires CleanConfig(c) && Clean(value)
    ensures CleanConfig(Put(c, key, value))
  {
    hide Clean, Entries, CleanList;
    EntriesAreClean(value);
    CleanListsConcat(c.allowedIPs, Entries(value));
  }

  lemma LineKeepsClean(c: Config, raw: string)
    requires CleanConfig(c) && '\n' !in raw
    ensures CleanConfig(ParseLine(c, raw))
  {
    hide CleanConfig, Put, Trim, Trimmed, Cut;
    TrimKeepsOut(raw, '\n');
    if Cut(Trim(raw)).Some? {
      CutKeepsOut(Trim(raw), '\n');
      var (before, after) := Cut(Trim(raw)).value;
      TrimKeepsOut(after, '\n');
      TrimIsTrimmed(after);
      PutKeepsClean(c, Trim(before), Trim(after));
    }
  }

  lemma {:induction false} LinesKeepClean(c: Config, raw: seq<string>)
    requires CleanConfig(c) && forall i :: 0 <= i < |raw| ==> '\n' !in raw[i]
    ensures CleanConfig(ParseLines(c, Scanned(raw)))
    decreases |raw|
  {
    hide CleanConfig, ParseLine, Bytes;
    if Scanned(raw) != [] {
      var line := DropCR(raw[0]);
      assert '\n' !in line;
      LineKeepsClean(c, line);
      LinesKeepClean(ParseLine(c, line), raw[1..]);
      assert Scanned(raw)[1..] == Scanned(raw[1..]);
    }
  }

  // The parser never returns a value with surrounding blanks or a line break, or an entry with a comma.
  lemma ParsedIsClean(text: string)
    ensures CleanConfig(Parsed(text))
  {
    hide ParseLines, Scanned, Split;
    SplitPieces(text, '\n');
    assert forall i :: 0 <= i < |Split(text, '\n')| ==> '\n' !in Split(text, '\n')[i];
    LinesKeepClean(EMPTY, RawLines(text));
  }

  // ---- the address list ----

  lemma TrimIgnoresLeadingSpace(s: string)
    ensures Trim(" " + s) == Trim(s)
  {
    assert (" " + s)[1..] == s;
  }

  lemma LeadingSpaceJoinsFirstPiece(s: string)
    ensures Split(" " + s, ',') == [" " + Split(s, ',')[0]] + Split(s, ',')[1..]
  {
    assert (" " + s)[1..] == s;
  }

  lemma TrimmedAlike(parts: seq<string>, others: seq<string>)
    requires |parts| == |others| && forall i :: 0 <= i < |parts| ==> Trim(parts[i]) == Trim(others[i])
    ensures TrimAll(parts) == TrimAll(others)
  {
    hide Trim;
  }

  lemma LeadingSpaceIsIgnored(s: string)
    ensures Entries(" " + s) == Entries(s)
  {
    hide Trim, Split, TrimAll;
    var parts, others := Split(s, ','), Split(" " + s, ',');
    LeadingSpaceJoinsFirstPiece(s);
    TrimIgnoresLeadingSpace(parts[0]);
    forall i | 0 <= i < |parts|
      ensures Trim(parts[i]) == Trim(others[i])
    {
      if i > 0 { assert others[i] == parts[i]; }
    }
    TrimmedAlike(parts, others);
  }

  lemma TrimAllCons(part: string, parts: seq<string>)
    ensures TrimAll([part] + parts) == [Trim(part)] + TrimAll(parts)
  {
    hide Trim;
  }

  lemma EntriesAfterComma(entry: string, rest: string)
    requires CleanEntry(entry)
    ensures Entries(entry + "," + rest) == [entry] + Entries(rest)
  {
    hide Split, Trim, Trimmed, TrimAll;
    TrimKeepsTrimmed(entry);
    SplitHead(entry, rest, ',');
    TrimAllCons(entry, Split(rest, ','));
  }

  lemma CleanAfterComma(entry: string, rest: string)
    requires Clean(entry) && Clean(rest)
    ensures Clean(if rest == "" then entry + "," else entry + ", " + rest)
  {
    var s := if rest == "" then entry + "," else entry + ", " + rest;
    assert s[0] == if entry == "" then ',' else entry[0];
    assert s[|s| - 1] == if rest == "" then ',' else rest[|rest| - 1];
  }

  // The joined list, without the blank that an empty last entry leaves at its end.
  function TightJoin(list: seq<string>): (r: string) {
    if |list| == 0 then ""
    else if |list| == 1 then list[0]
    else if TightJoin(list[1..]) == "" then list[0] + ","
    else list[0] + ", " + TightJoin(list[1..])
  }

  lemma {:induction false} JoinIsTightJoin(list: seq<string>)
    requires CleanList(list)
    ensures Clean(TightJoin(list))
    ensures Join(list, ", ") == TightJoin(list) || (TightJoin(list) != "" && Join(list, ", ") == TightJoin(list) + " ")
  {
    if |list| > 0 { assert CleanEntry(list[0]); }
    if |list| > 1 {
      var entry, rest, tight := list[0], Join(list[1..], ", "), TightJoin(list[1..]);
      JoinIsTightJoin(list[1..]);
      CleanAfterComma(entry, tight);
      hide Join, TightJoin, Clean;
      Associative(entry + ", ", tight, " ");
      Associative(entry, ",", " ");
    }
  }

  lemma NoPieces()
    ensures TrimAll([]) == []
  {
    hide Trim;
  }

  lemma OneEntry(entry: string)
    requires CleanEntry(entry)
    ensures Entries(entry) == [entry]
  {
    hide Split, Trim, Trimmed, TrimAll;
    TrimKeepsTrimmed(entry);
    SplitHead(entry, "", ',');
    TrimAllCons(entry, []);
    assert [entry] + [] == [entry];
    NoPieces();
  }

  lemma {:induction false} TightJoinedEntries(list: seq<string>)
    requires list != [] && CleanList(list)
    ensures Entries(TightJoin(list)) == list
  {
    hide Entries, CleanEntry;
    var entry, tight := list[0], TightJoin(list[1..]);
    assert CleanEntry(entry);
    if |list| == 1 {
      OneEntry(entry);
    } else {
      TightJoinedEntries(list[1..]);
      if tight == "" {
        EntriesAfterComma(entry, "");
        assert entry + "," + "" == entry + ",";
      } else {
        EntriesAfterComma(entry, " " + tight);
        LeadingSpaceIsIgnored(tight);
        assert entry + "," + (" " + tight) == entry + ", " + tight;
      }
    }
  }

  lemma JoinedEntries(list: seq<string>)
    requires CleanList(list)
    ensures Printable(Join(list, ", "))
    ensures Entries(Trim(Join(list, ", "))) == if list == [] then [""] else list
  {
    hide Entries, Trim;
    JoinIsTightJoin(list);
    var tight := TightJoin(list);
    TrimKeepsTrimmed(tight);
    TrimDropsTrailingSpace(tight);
    assert (tight + " ")[..|tight|] == tight;
    if list == [] { OneEntry(""); } else { TightJoinedEntries(list); }
  }

  // ---- the settings of a configuration ----

  const KEYS := {"PrivateKey", "Address", "DNS", "PublicKey", "PresharedKey", "AllowedIPs", "Endpoint"}

  // What a configuration holds under a key.
  function Get(c: Config, key: string): seq<string>
    requires key in KEYS
  {
    if key == "PrivateKey" then [c.privateKey]
    else if key == "Address" then [c.address]
    else if key == "DNS" then [c.dns]
    else if key == "PublicKey" then [c.serverPubkey]
    else if key == "PresharedKey" then [c.presharedKey]
    else if key == "AllowedIPs" then c.allowedIPs
    else [c.endpoint]
  }

  lemma SameSettings(c: Config, d: Config)
    ensures c == d <==> forall key :: key in KEYS ==> Get(c, key) == Get(d, key)
  {
    if forall key :: key in KEYS ==> Get(c, key) == Get(d, key) {
      assert Get(c, "PrivateKey") == Get(d, "PrivateKey");
      assert Get(c, "Address") == Get(d, "Address");
      assert Get(c, "DNS") == Get(d, "DNS");
      assert Get(c, "PublicKey") == Get(d, "PublicKey");
      assert Get(c, "PresharedKey") == Get(d, "PresharedKey");
      assert Get(c, "AllowedIPs") == Get(d, "AllowedIPs");
      assert Get(c, "Endpoint") == Get(d, "Endpoint");
    }
  }

  lemma PutThenGet(c: Config, key: string, value: string, other: string)
    requires other in KEYS
    ensures Get(Put(c, key, value), other) ==
      if key != other then Get(c, other) else if key == "AllowedIPs" then c.allowedIPs + Entries(value) else [value]
  {
    hide Entries;
  }

  predicate Sets(l: Line, key: string) {
    l.Setting? && l.key == key
  }

  lemma AllowedIsGet(c: Config)
    ensures Get(c, "AllowedIPs") == c.allowedIPs
  {
  }

  lemma LineThenGet(c: Config, l: Line, key: string)
    requires key in KEYS
    ensures Get(Apply(c, l), key) ==
      if !Sets(l, key) then Get(c, key)
      else if key == "AllowedIPs" then Get(c, key) + Entries(Trim(l.value))
      else [Trim(l.value)]
  {
    AllowedIsGet(c);
    hide Get, Put, Entries, Trim;
    if l.Setting? { PutThenGet(c, l.key, Trim(l.value), key); }
  }

  // Lines without a key leave its setting alone.
  lemma {:induction false} Untouched(c: Config, lines: seq<Line>, key: string)
    requires key in KEYS && forall i :: 0 <= i < |lines| ==> !Sets(lines[i], key)
    ensures Get(ApplyAll(c, lines), key) == Get(c, key)
    decreases |lines|
  {
    hide Get, Apply, Sets, Entries, Trim;
    if lines == [] {
    } else {
      LineThenGet(c, lines[0], key);
      Untouched(Apply(c, lines[0]), lines[1..], key);
    }
  }

  // A key on exactly one line is set by that line.
  lemma {:induction false} SetOnce(c: Config, lines: seq<Line>, i: nat, key: string)
    requires i < |lines| && key in KEYS && Sets(lines[i], key)
    requires forall j :: 0 <= j < |lines| && j != i ==> !Sets(lines[j], key)
    ensures Get(ApplyAll(c, lines), key) ==
      if key == "AllowedIPs" then Get(c, key) + Entries(Trim(lines[i].value)) else [Trim(lines[i].value)]
    decreases |lines|
  {
    hide Get, Apply, Sets, Entries, Trim;
    LineThenGet(c, lines[0], key);
    assert forall j :: 0 <= j < |lines[1..]| ==> lines[1..][j] == lines[j + 1];
    if i == 0 {
      Untouched(Apply(c, lines[0]), lines[1..], key);
    } else {
      SetOnce(Apply(c, lines[0]), lines[1..], i - 1, key);
    }
  }

  // ---- the round trip ----

  predicate Fits(c: Config) {
    forall i :: 0 <= i < |Lines(c)| ==> Short(Lines(c)[i])
  }

  predicate Letters(s: string) {
    forall i :: 0 <= i < |s| ==> 'a' <= s[i] <= 'z' || 'A' <= s[i] <= 'Z'
  }

  lemma LettersAreClean(key: string)
    requires key != "" && Letters(key)
    ensures CleanKey(key)
  {
  }

  lemma InterfaceKeysAreClean()
    ensures CleanKey("PrivateKey") && CleanKey("Address") && CleanKey("DNS")
  {
    hide CleanKey;
    LettersAreClean("PrivateKey");
    LettersAreClean("Address");
    LettersAreClean("DNS");
  }

  lemma PeerKeysAreClean()
    ensures CleanKey("PublicKey") && CleanKey("PresharedKey") && CleanKey("AllowedIPs") && CleanKey("Endpoint")
  {
    hide CleanKey;
    LettersAreClean("PublicKey");
    LettersAreClean("PresharedKey");
    LettersAreClean("AllowedIPs");
    LettersAreClean("Endpoint");
  }

  lemma InterfaceLinesAreClean(c: Config)
    requires CleanConfig(c)
    ensures forall l :: l in InterfaceLines(c) ==> CleanLine(l)
  {
    InterfaceKeysAreClean();
    hide CleanList, CleanKey, Clean;
  }

  lemma KeepaliveIsClean()
    ensures CleanLine(Setting("PersistentKeepalive", "25"))
  {
    LettersAreClean("PersistentKeepalive");
    hide CleanKey;
    assert Clean("25");
  }

  lemma PeerLinesAreClean(c: Config)
    requires CleanConfig(c)
    ensures forall l :: l in PeerLines(c) ==> CleanLine(l)
  {
    hide CleanList, Join, CleanKey, Clean, Letters, Entries, Trim;
    PeerKeysAreClean();
    KeepaliveIsClean();
    JoinedEntries(c.allowedIPs);
  }

  lemma LinesAreClean(c: Config)
    requires CleanConfig(c)
    ensures forall l :: l in Lines(c) ==> CleanLine(l)
  {
    InterfaceLinesAreClean(c);
    PeerLinesAreClean(c);
    hide InterfaceLines, PeerLines, CleanLine;
  }

  lemma NoBreakInLine(l: Line)
    requires CleanLine(l)
    ensures '\n' !in l.Show()
  {
    hide Trim, Trimmed, IsSpace;
    if l.Setting? {
      PrintableIsTrimmedTo(l.value);
    }
  }

  lemma KeysAreDistinct(c: Config, i: nat, j: nat)
    requires i < j < |Lines(c)| && Lines(c)[i].Setting? && Lines(c)[j].Setting?
    ensures Lines(c)[i].key != Lines(c)[j].key
  {
    hide Join;
  }

  // Parsing the printed form applies its lines, up to the first that is too long.
  lemma ParsedIsApplied(c: Config)
    requires CleanConfig(c)
    ensures Parsed(Render(c)) == ApplyAll(EMPTY, Read(Lines(c)))
  {
    LinesAreClean(c);
    RenderIsItsLines(c);
    var lines := Lines(c);
    hide Lines, CleanLine, Render, Unlines, Scanned, Read, RawLines;
    forall i | 0 <= i < |lines|
      ensures '\n' !in lines[i].Show()
    {
      assert lines[i] in lines;
      NoBreakInLine(lines[i]);
    }
    RawLinesOfUnlines(lines);
    LinesAreApplied(EMPTY, lines);
  }

  // What the printed line of a key holds.
  predicate Holds(c: Config, l: Line) {
    l.Setting? && l.key in KEYS &&
    (if l.key == "AllowedIPs" then l.value == Join(c.allowedIPs, ", ") else Get(c, l.key) == [l.value])
  }

  lemma LinesHold(c: Config, i: nat)
    requires i < |Lines(c)| && Lines(c)[i].Setting? && Lines(c)[i].key != "PersistentKeepalive"
    ensures Holds(c, Lines(c)[i])
    ensures Lines(c)[i].key == "PresharedKey" ==> c.presharedKey != ""
  {
    hide Join;
  }

  // The line of a key, if it has one.
  function LineOf(c: Config, key: string): (i: nat)
    requires key in KEYS && (key == "PresharedKey" ==> c.presharedKey != "")
    ensures i < |Lines(c)| && Sets(Lines(c)[i], key)
  {
    var extra := if c.presharedKey == "" then 0 else 1;
    if key == "PrivateKey" then 1
    else if key == "Address" then 2
    else if key == "DNS" then 3
    else if key == "PublicKey" then 6
    else if key == "PresharedKey" then 7
    else if key == "AllowedIPs" then 7 + extra
    else 8 + extra
  }

  lemma OnlyLineOf(c: Config, i: nat, j: nat, key: string)
    requires i < |Lines(c)| && j < |Lines(c)| && i != j && Sets(Lines(c)[i], key)
    ensures !Sets(Lines(c)[j], key)
  {
    hide Lines;
    if Sets(Lines(c)[j], key) {
      if i < j { KeysAreDistinct(c, i, j); } else { KeysAreDistinct(c, j, i); }
    }
  }

  lemma NoPresharedLine(c: Config, i: nat)
    requires c.presharedKey == "" && i < |Lines(c)|
    ensures !Sets(Lines(c)[i], "PresharedKey")
  {
    hide Join;
  }

  lemma AllRead(c: Config)
    requires Fits(c)
    ensures Read(Lines(c)) == Lines(c)
  {
    hide Lines, Short, Read;
    ReadStopsAtLongLine(Lines(c));
  }

  lemma GetIsClean(c: Config, key: string)
    requires CleanConfig(c) && key in KEYS && key != "AllowedIPs"
    ensures |Get(c, key)| == 1 && Trim(Get(c, key)[0]) == Get(c, key)[0]
  {
    hide Trim, Trimmed;
    TrimKeepsTrimmed(Get(c, key)[0]);
  }

  lemma AllowedEntries(c: Config)
    requires CleanConfig(c)
    ensures Entries(Trim(Join(c.allowedIPs, ", "))) == if c.allowedIPs == [] then [""] else c.allowedIPs
  {
    hide Entries, Trim, Join, CleanList, Clean;
    JoinedEntries(c.allowedIPs);
  }

  lemma LineReadsBack(c: Config, key: string)
    requires CleanConfig(c) && key in KEYS && (key == "PresharedKey" ==> c.presharedKey != "")
    ensures Get(ApplyAll(EMPTY, Lines(c)), key) == if key == "AllowedIPs" && c.allowedIPs == [] then [""] else Get(c, key)
  {
    hide Lines, Get, CleanConfig, Join, Entries, Trim, ApplyAll;
    var i := LineOf(c, key);
    forall j: nat | j < |Lines(c)| && j != i
      ensures !Sets(Lines(c)[j], key)
    {
      OnlyLineOf(c, i, j, key);
    }
    SetOnce(EMPTY, Lines(c), i, key);
    AllowedIsGet(EMPTY);
    LinesHold(c, i);
    if key == "AllowedIPs" {
      AllowedEntries(c);
      assert [] + Entries(Trim(Join(c.allowedIPs, ", "))) == Entries(Trim(Join(c.allowedIPs, ", ")));
      AllowedIsGet(c);
    } else {
      GetIsClean(c, key);
    }
  }

  lemma NoPresharedKey(c: Config)
    requires c.presharedKey == ""
    ensures Get(ApplyAll(EMPTY, Lines(c)), "PresharedKey") == Get(c, "PresharedKey")
  {
    hide Lines, ApplyAll;
    forall i | 0 <= i < |Lines(c)|
      ensures !Sets(Lines(c)[i], "PresharedKey")
    {
      NoPresharedLine(c, i);
    }
    Untouched(EMPTY, Lines(c), "PresharedKey");
  }

  lemma ReadsBack(c: Config, key: string)
    requires CleanConfig(c) && Fits(c) && key in KEYS
    ensures Get(Parsed(Render(c)), key) == if key == "AllowedIPs" && c.allowedIPs == [] then [""] else Get(c, key)
  {
    hide Parsed, Render, ApplyAll, Read, Lines, Get, CleanConfig, Fits;
    ParsedIsApplied(c);
    AllRead(c);
    if key == "PresharedKey" && c.presharedKey == "" {
      NoPresharedKey(c);
    } else {
      LineReadsBack(c, key);
    }
  }

  lemma LongLineHasValue(c: Config, i: nat)
    requires i < |Lines(c)| && !Short(Lines(c)[i])
    ensures Lines(c)[i].Setting? && Lines(c)[i].key in KEYS
    ensures Holds(c, Lines(c)[i]) && Lines(c)[i].value != ""
  {
    AtMostFourBytesEach(Lines(c)[i].Show());
    hide Bytes, Join;
    LinesHold(c, i);
  }

  lemma HeldIsNotEmpty(c: Config, l: Line)
    requires Holds(c, l) && l.value != ""
    ensures Get(c, l.key) != Get(EMPTY, l.key)
  {
  }

  // A line the scanner refuses takes its setting with it.
  lemma LongLineIsLost(c: Config)
    requires CleanConfig(c) && !Fits(c)
    ensures Parsed(Render(c)) != c
  {
    hide Lines, Short, Parsed, Render, ApplyAll, Read, CleanConfig, Get, Holds;
    ParsedIsApplied(c);
    ReadStopsAtLongLine(Lines(c));
    var n := |Read(Lines(c))|;
    var line := Lines(c)[n];
    LongLineHasValue(c, n);
    forall i | 0 <= i < n
      ensures !Sets(Read(Lines(c))[i], line.key)
    {
      OnlyLineOf(c, n, i, line.key);
    }
    Untouched(EMPTY, Read(Lines(c)), line.key);
    HeldIsNotEmpty(c, line);
  }

  /** What the CLI writes is what the tunnel reads, for every configuration whose values fit on a line:
      exactly when no value has surrounding blanks or a line break, no address a comma, there is an address,
      and no line fills the scanner's buffer. Values may contain '=' and may be empty. */
  lemma RoundTrip(c: Config)
    ensures Parsed(Render(c)) == c <==> CleanConfig(c) && c.allowedIPs != [] && Fits(c)
  {
    hide Parsed, Render, CleanConfig, Fits, Get;
    if !CleanConfig(c) {
      ParsedIsClean(Render(c));
    } else if !Fits(c) {
      LongLineIsLost(c);
    } else {
      forall key | key in KEYS
        ensures Get(Parsed(Render(c)), key) == if key == "AllowedIPs" && c.allowedIPs == [] then [""] else Get(c, key)
      {
        ReadsBack(c, key);
      }
      SameSettings(Parsed(Render(c)), c);
      AllowedIsGet(c);
    }
  }

  predicate CleanAnswer(a: Answer) {
    && Clean(a.serverEndpoint) && Clean(a.serverPubkey) && Clean(a.assignedIP) && Clean(a.dnsServer)
    && Clean(a.presharedKey) && CleanList(a.allowedIPs) && CleanList(a.clientAllowedIPs)
  }

  lemma DefaultsAreClean()
    ensures Clean("1.1.1.1") && CleanList(["0.0.0.0/0", "::/0"])
  {
    assert Clean("1.1.1.1");
    assert CleanEntry("0.0.0.0/0");
    assert CleanEntry("::/0");
  }

  /** A connection's configuration always has an address, so it round trips whenever its lines fit. */
  lemma ConnectionRoundTrips(privateKey: string, answer: Answer)
    requires Clean(privateKey) && CleanAnswer(answer)
    ensures Connected(privateKey, answer).allowedIPs != []
    ensures var c := Connected(privateKey, answer); Parsed(Render(c)) == c <==> Fits(c)
  {
    var c := Connected(privateKey, answer);
    var lists := [answer.clientAllowedIPs, answer.allowedIPs, ["0.0.0.0/0", "::/0"]];
    RoundTrip(c);
    DefaultsAreClean();
    hide Clean, CleanList, Parsed, Render, Fits;
    assert FirstNonEmpty(lists[2..]) == lists[2];
    assert FirstNonEmpty(lists[1..]) == if lists[1] != [] then lists[1] else lists[2];
    assert lists[1..][1..] == lists[2..];
    assert FirstNonEmpty(lists) == if lists[0] != [] then lists[0] else FirstNonEmpty(lists[1..]);
  }
}
