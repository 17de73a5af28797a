/**
 * The per-conversation work of the exporter: which messages are kept and
 * how, the front matter and body of the Markdown document, the output file
 * name, and the loop over all conversations that writes one file each.
 */
module Export {

  import opened Wrappers
  import opened Text
  import opened Filenames
  import opened Yaml
  import opened Dates
  import opened Sequences

  /** A message: `author.role`, `content.parts` and `content.text`, each possibly absent. */
  datatype Message = Message(role: Option<string>, parts: Option<seq<string>>, text: Option<string>)

  /** A node of a conversation's `mapping`; a node need not carry a message. */
  datatype Node = Node(message: Option<Message>)

  /**
   * One record of the export. `nodes` are the values of `mapping`, in the
   * order the mapping yields them.
   */
  datatype Conversation = Conversation(
    title: Option<string>,
    createTime: Option<string>,
    id: Option<string>,
    conversationId: Option<string>,
    nodes: seq<Node>)

  /** Configuration: file names carry no date prefix unless asked. */
  const AddDatePrefixToFilename := false

  const PartSeparator := "\n\n"
  const BlockSeparator := "\n---\n\n"
  const NoMessagesPlaceholder := "_No messages found._"
  const UntitledTitle := "Untitled"

  /** Python's `value or ""` on an optional text. */
  function OrEmpty(o: Option<string>): string {
    if o.Some? then o.value else ""
  }

  /** `convo.get("title") or "Untitled"`. */
  function Title(c: Conversation): (t: string)
    ensures t != ""
    ensures OrEmpty(c.title) != "" ==> t == c.title.value
    ensures OrEmpty(c.title) == "" ==> t == UntitledTitle
  {
    if OrEmpty(c.title) != "" then c.title.value else UntitledTitle
  }

  /**
   * `convo.get("create_time", "")`: the record's creation time; an absent
   * or null value reads as empty.
   */
  function CreatedRaw(c: Conversation): (r: string)
    ensures r == "" <==> c.createTime.None? || c.createTime.value == ""
    ensures r != "" ==> c.createTime == Some(r)
  {
    OrEmpty(c.createTime)
  }

  /**
   * `convo.get("id") or convo.get("conversation_id") or ""`: empty only when
   * both are missing or empty, otherwise one of the two, and `id` whenever
   * it is there and not empty.
   */
  function ConversationId(c: Conversation): (r: string)
    ensures r == "" <==> OrEmpty(c.id) == "" && OrEmpty(c.conversationId) == ""
    ensures r != "" ==> c.id == Some(r) || c.conversationId == Some(r)
    ensures OrEmpty(c.id) != "" ==> c.id == Some(r)
  {
    if OrEmpty(c.id) != "" then c.id.value else OrEmpty(c.conversationId)
  }

  function CreatedDate(c: Conversation, fromIsoFormat: string -> Option<string>): string {
    IsoDate(CreatedRaw(c), fromIsoFormat)
  }

  // ---- Message extraction ----

  predicate IsKeptRole(role: string) {
    role == "user" || role == "assistant"
  }

  /**
   * The text of a message: its parts joined by a blank line and stripped
   * when that gives something, else its stripped `text` field.
   */
  function ResolveText(m: Message): (t: string)
    ensures IsStripped(t)
  {
    var joined := if m.parts.Some? && m.parts.value != [] then Strip(Join(m.parts.value, PartSeparator)) else "";
    if joined != "" then joined else Strip(OrEmpty(m.text))
  }

  function Label(role: string): string {
    if role == "user" then "**User:**\n" else "**Assistant:**\n"
  }

  /**
   * The rendered block of a node, when it is one the exporter keeps. A node
   * yields a block exactly when it carries a `user` or `assistant` message
   * with non-empty text; the block is the role's label, that text (stripped)
   * and a newline.
   */
  function Block(n: Node): (r: Option<string>)
    ensures r.Some? <==>
      n.message.Some? && IsKeptRole(OrEmpty(n.message.value.role)) && ResolveText(n.message.value) != ""
    ensures r.Some? ==>
      var text := ResolveText(n.message.value);
      text != "" && IsStripped(text)
      && r.value == (if n.message.value.role == Some("user") then "**User:**\n" else "**Assistant:**\n") + text + "\n"
  {
    match n.message
    case None => None
    case Some(m) =>
      var role := OrEmpty(m.role);
      var text := ResolveText(m);
      if IsKeptRole(role) && text != "" then Some(Label(role) + text + "\n") else None
  }

  /** The blocks of the kept nodes, in node order. */
  function Extracted(nodes: seq<Node>): seq<string> {
    FilterMap(nodes, Block)
  }

  /** The `for node in nodes` loop that fills `messages`. */
  method ExtractMessages(nodes: seq<Node>) returns (messages: seq<string>)
    ensures messages == Extracted(nodes)
  {
    messages := [];
    for i := 0 to |nodes|
      invariant messages == FilterMap(nodes[..i], Block)
    {
      FilterMapStep(nodes, i, Block);
      var node := nodes[i];
      if node.message.None? {
        continue;
      }
      var msg := node.message.value;
      var role := OrEmpty(msg.role);
      if role != "user" && role != "assistant" {
        continue;
      }
      var text := "";
      if msg.parts.Some? && msg.parts.value != [] {
        text := Strip(Join(msg.parts.value, PartSeparator));
      }
      if text == "" {
        text := Strip(OrEmpty(msg.text));
      }
      assert text == ResolveText(msg);
      if text == "" {
        continue;
      }
      if role == "user" {
        messages := messages + ["**User:**\n" + text + "\n"];
      } else {
        messages := messages + ["**Assistant:**\n" + text + "\n"];
      }
    }
    assert nodes[..|nodes|] == nodes;
  }

  /**
   * The parts are used whenever one of them has a character that is not
   * whitespace; otherwise the `text` field is. The text is empty exactly when
   * both sources are blank.
   */
  lemma ResolveTextSource(m: Message)
    ensures m.parts.Some? && (exists i :: 0 <= i < |m.parts.value| && !AllSpace(m.parts.value[i])) ==>
      ResolveText(m) == Strip(Join(m.parts.value, PartSeparator))
    ensures !(m.parts.Some? && (exists i :: 0 <= i < |m.parts.value| && !AllSpace(m.parts.value[i]))) ==>
      ResolveText(m) == Strip(OrEmpty(m.text))
    ensures ResolveText(m) == "" <==>
      (m.parts.None? || forall i :: 0 <= i < |m.parts.value| ==> AllSpace(m.parts.value[i]))
      && AllSpace(OrEmpty(m.text))
  {
    if m.parts.Some? {
      JoinAllSpace(m.parts.value, PartSeparator);
    }
  }

  /** Worked example: the parts `Hello` and `World` read as `Hello\n\nWorld`. */
  lemma PartsExample()
    ensures ResolveText(Message(Some("user"), Some(["Hello", "World"]), None)) == "Hello\n\nWorld"
  {
    var parts := ["Hello", "World"];
    var joined := Join(parts, PartSeparator);
    assert joined == "Hello\n\nWorld" by {
      assert parts[..1] == ["Hello"];
    }
    StripStripped(joined);
  }

  // ---- Document ----

  /**
   * The heading line and a blank line, then, exactly when the raw creation
   * time is not empty, the `*Created:*` line and a blank line.
   */
  function Heading(title: string, createdRaw: string): (r: string)
    ensures "# " + title + "\n\n" <= r
    ensures createdRaw == "" <==> r == "# " + title + "\n\n"
    ensures createdRaw != "" ==> r[|title| + 4..] == "*Created:* " + createdRaw + "\n\n"
  {
    "# " + title + "\n\n" + (if createdRaw != "" then "*Created:* " + createdRaw + "\n\n" else "")
  }

  /**
   * The body: the heading, then the placeholder when there are no blocks;
   * a single block stands alone after the heading. `BodyBlockAt` places
   * each block of a longer list.
   */
  function Body(title: string, createdRaw: string, blocks: seq<string>): (r: string)
    ensures Heading(title, createdRaw) <= r
    ensures blocks == [] ==> r[|Heading(title, createdRaw)|..] == NoMessagesPlaceholder
    ensures |blocks| == 1 ==> r[|Heading(title, createdRaw)|..] == blocks[0]
  {
    Heading(title, createdRaw) + (if blocks != [] then Join(blocks, BlockSeparator) else NoMessagesPlaceholder)
  }

  /** A front-matter value that may be empty: `""` when empty, else `yaml_escape` of it. */
  function FieldValue(v: string): string {
    if v != "" then YamlEscape(Some(v)) else "\"\""
  }

  /**
   * The nine front-matter lines, between two `---` lines and ended by an
   * empty one. The title, date and conversation id can each be read back
   * from the value on their line.
   */
  function FrontMatter(title: string, createdDate: string, convoId: string): (r: seq<string>)
    ensures |r| == 9 && r[0] == "---" && r[7] == "---" && r[8] == ""
    ensures |r[1]| >= 7 && r[1][..7] == "title: " && Unquote(r[1][7..]) == title
    ensures |r[2]| >= 6 && r[2][..6] == "date: " && Unquote(r[2][6..]) == createdDate
    ensures |r[6]| >= 17 && r[6][..17] == "conversation_id: " && Unquote(r[6][17..]) == convoId
  {
    YamlRoundTrip(title);
    FieldValueRoundTrip(createdDate);
    FieldValueRoundTrip(convoId);
    [ "---",
      "title: " + YamlEscape(Some(title)),
      "date: " + FieldValue(createdDate),
      "tags: [chatgpt, export]",
      "participants: [user, assistant]",
      "source: chatgpt",
      "conversation_id: " + FieldValue(convoId),
      "---",
      "" ]
  }

  /**
   * The whole Markdown text written for a conversation: the front matter,
   * ended by `---` and a newline, then the body.
   */
  function Document(c: Conversation, fromIsoFormat: string -> Option<string>): (r: string)
    ensures var body := Body(Title(c), CreatedRaw(c), Extracted(c.nodes));
      var t, d, i := YamlEscape(Some(Title(c))), FieldValue(CreatedDate(c, fromIsoFormat)), FieldValue(ConversationId(c));
      && |body| <= |r| && r[|r| - |body|..] == body
      && r[..|r| - |body|]
         == "---" + "\n" + ("title: " + t) + "\n" + ("date: " + d) + "\n" + "tags: [chatgpt, export]"
            + "\n" + "participants: [user, assistant]" + "\n" + "source: chatgpt"
            + "\n" + ("conversation_id: " + i) + "\n" + "---" + "\n" + ""
  {
    FrontMatterText(Title(c), CreatedDate(c, fromIsoFormat), ConversationId(c));
    Join(FrontMatter(Title(c), CreatedDate(c, fromIsoFormat), ConversationId(c)), "\n")
    + Body(Title(c), CreatedRaw(c), Extracted(c.nodes))
  }

  /** `base + ".md"`, after `date + " "` when the prefix is asked for and the date is known. */
  function NameFor(base: string, date: string, addDatePrefix: bool): string {
    (if addDatePrefix && date != "" then date + " " + base else base) + ".md"
  }

  /** The name of the file written for a conversation. */
  function FileName(c: Conversation, fromIsoFormat: string -> Option<string>, addDatePrefix: bool): string {
    NameFor(SanitizeFilename(Title(c)), CreatedDate(c, fromIsoFormat), addDatePrefix)
  }

  /**
   * The body of a conversation with blocks: its heading, then every block
   * whole and in extraction order, each after a rule unless it is the first.
   */
  lemma BodyBlockAt(title: string, createdRaw: string, blocks: seq<string>, k: nat)
    requires k < |blocks|
    ensures Body(title, createdRaw, blocks)
         == Heading(title, createdRaw) + Join(blocks[..k], BlockSeparator)
            + (if k == 0 then "" else BlockSeparator) + blocks[k]
            + (if k + 1 == |blocks| then "" else BlockSeparator + Join(blocks[k + 1..], BlockSeparator))
  {
    var joined := Join(blocks, BlockSeparator);
    assert Body(title, createdRaw, blocks) == Heading(title, createdRaw) + joined;
    JoinAt(blocks, BlockSeparator, k);
  }

  /**
   * Every empty-or-not field can be read back from its front-matter value;
   * an empty one is written `""`.
   */
  lemma FieldValueRoundTrip(v: string)
    ensures Unquote(FieldValue(v)) == v
    ensures v == "" ==> FieldValue(v) == "\"\""
  {
    if v != "" { YamlRoundTrip(v); }
  }

  /** A date is written quoted: `"YYYY-MM-DD"`. */
  lemma DateIsQuoted(d: string)
    requires IsIsoDate(d)
    ensures FieldValue(d) == "\"" + d + "\""
  {
    assert IsIndicator(d[4]);
    assert CountQuotes(d) == 0 by {
      assert forall i :: 0 <= i < |d| ==> d[i] != '"';
      NoQuotesCount(d);
    }
  }

  lemma {:induction false} NoQuotesCount(t: string)
    requires forall i :: 0 <= i < |t| ==> t[i] != '"'
    ensures CountQuotes(t) == 0
  {
    if t != [] {
      assert forall i :: 0 <= i < |t[1..]| ==> t[1..][i] == t[i + 1];
      NoQuotesCount(t[1..]);
    }
  }

  /**
   * The front matter as text: its nine lines, each ended by a newline except
   * the empty last one, so that the body starts right after `---\n`.
   */
  lemma FrontMatterText(title: string, createdDate: string, convoId: string)
    ensures var t, d, i := YamlEscape(Some(title)), FieldValue(createdDate), FieldValue(convoId);
      Join(FrontMatter(title, createdDate, convoId), "\n")
      == "---" + "\n" + ("title: " + t) + "\n" + ("date: " + d) + "\n" + "tags: [chatgpt, export]"
         + "\n" + "participants: [user, assistant]" + "\n" + "source: chatgpt"
         + "\n" + ("conversation_id: " + i) + "\n" + "---" + "\n" + ""
  {
    FrontMatterJoin(YamlEscape(Some(title)), FieldValue(createdDate), FieldValue(convoId));
  }

  /** The join of the nine lines, whatever the three values on them. */
  lemma FrontMatterJoin(t: string, d: string, i: string)
    ensures Join([ "---", "title: " + t, "date: " + d, "tags: [chatgpt, export]",
                   "participants: [user, assistant]", "source: chatgpt",
                   "conversation_id: " + i, "---", "" ], "\n")
      == "---" + "\n" + ("title: " + t) + "\n" + ("date: " + d) + "\n" + "tags: [chatgpt, export]"
         + "\n" + "participants: [user, assistant]" + "\n" + "source: chatgpt"
         + "\n" + ("conversation_id: " + i) + "\n" + "---" + "\n" + ""
  {
    var l1 := ["---"];
    var l2 := l1 + ["title: " + t];
    JoinSnoc(l1, "title: " + t, "\n");
    var l3 := l2 + ["date: " + d];
    JoinSnoc(l2, "date: " + d, "\n");
    var l4 := l3 + ["tags: [chatgpt, export]"];
    JoinSnoc(l3, "tags: [chatgpt, export]", "\n");
    var l5 := l4 + ["participants: [user, assistant]"];
    JoinSnoc(l4, "participants: [user, assistant]", "\n");
    var l6 := l5 + ["source: chatgpt"];
    JoinSnoc(l5, "source: chatgpt", "\n");
    var l7 := l6 + ["conversation_id: " + i];
    JoinSnoc(l6, "conversation_id: " + i, "\n");
    var l8 := l7 + ["---"];
    JoinSnoc(l7, "---", "\n");
    JoinSnoc(l8, "", "\n");
    assert l8 + [""] == [ "---", "title: " + t, "date: " + d, "tags: [chatgpt, export]",
                          "participants: [user, assistant]", "source: chatgpt",
                          "conversation_id: " + i, "---", "" ];
  }

  lemma NoReservedConcat(a: string, b: string)
    ensures NoReserved(a + b) <==> NoReserved(a) && NoReserved(b)
  {
    if NoReserved(a + b) {
      assert forall i :: 0 <= i < |a| ==> a[i] == (a + b)[i];
      assert forall i :: 0 <= i < |b| ==> b[i] == (a + b)[|a| + i];
    }
  }

  lemma IsoDateNoReserved(d: string)
    requires IsIsoDate(d)
    ensures NoReserved(d)
  {
    forall i | 0 <= i < |d| ensures !IsReserved(d[i]) {
      assert i == 4 || i == 7 || IsDigit(d[i]);
    }
  }

  lemma NameForIsSafe(base: string, date: string, addDatePrefix: bool)
    requires IsSafeName(base)
    requires date == "" || IsIsoDate(date)
    ensures var name := NameFor(base, date, addDatePrefix);
      && |name| <= MaxNameLength + 14
      && name[|name| - 3..] == ".md"
      && NoReserved(name)
      && (!addDatePrefix || date == "" ==> name == base + ".md")
  {
    var prefixed := if addDatePrefix && date != "" then date + " " + base else base;
    if addDatePrefix && date != "" {
      IsoDateNoReserved(date);
      NoReservedConcat(date, " ");
      NoReservedConcat(date + " ", base);
    }
    assert NoReserved(".md");
    NoReservedConcat(prefixed, ".md");
  }

  /**
   * The file name ends in `.md`, holds none of the reserved characters (so
   * in particular no path separator), is the sanitised title alone unless
   * the date prefix is asked for and a date is known, and is at most 114
   * characters long.
   */
  lemma FileNameIsSafe(c: Conversation, fromIsoFormat: string -> Option<string>, addDatePrefix: bool)
    requires IsDateParser(fromIsoFormat)
    ensures var name := FileName(c, fromIsoFormat, addDatePrefix);
      && |name| <= MaxNameLength + 14
      && name[|name| - 3..] == ".md"
      && NoReserved(name)
      && (!addDatePrefix || CreatedDate(c, fromIsoFormat) == "" ==> name == SanitizeFilename(Title(c)) + ".md")
  {
    var base := SanitizeFilename(Title(c));
    var date := CreatedDate(c, fromIsoFormat);
    SanitizeIsSafe(Title(c));
    assert date == "" || IsIsoDate(date);
    NameForIsSafe(base, date, addDatePrefix);
  }

  /** The body, built by appending to it as the exporter does. */
  method BuildBody(title: string, createdRaw: string, messages: seq<string>) returns (body: string)
    ensures body == Body(title, createdRaw, messages)
  {
    body := "# " + title + "\n\n";
    if createdRaw != "" {
      body := body + "*Created:* " + createdRaw + "\n\n";
    }
    assert body == Heading(title, createdRaw);
    body := body + (if messages != [] then Join(messages, BlockSeparator) else NoMessagesPlaceholder);
  }

  /** The output file name, with the date prefix added in place when asked for. */
  method BuildFileName(title: string, createdDate: string, addDatePrefix: bool) returns (name: string)
    ensures name == NameFor(SanitizeFilename(title), createdDate, addDatePrefix)
  {
    var base := SanitizeFilename(title);
    if addDatePrefix && createdDate != "" {
      base := createdDate + " " + base;
    }
    name := base + ".md";
  }

  /**
   * The loop body over one conversation, lifted into a method: gathers the
   * fields, extracts the messages, joins the front matter to the body and
   * names the file.
   */
  method ExportConversation(c: Conversation, fromIsoFormat: string -> Option<string>, addDatePrefix: bool)
    returns (name: string, content: string)
    ensures name == FileName(c, fromIsoFormat, addDatePrefix)
    ensures content == Document(c, fromIsoFormat)
  {
    var title := Title(c);
    var createdRaw := CreatedRaw(c);
    var createdDate := IsoDate(createdRaw, fromIsoFormat);
    var convoId := ConversationId(c);
    var messages := ExtractMessages(c.nodes);
    var yamlLines := FrontMatter(title, createdDate, convoId);
    var body := BuildBody(title, createdRaw, messages);
    content := Join(yamlLines, "\n") + body;
    name := BuildFileName(title, createdDate, addDatePrefix);
  }

  /** A node holding a message of the given role made of one part. */
  function OnePartNode(role: string, text: string): Node {
    Node(Some(Message(Some(role), Some([text]), None)))
  }

  /** A kept message made of one stripped, non-empty part renders as that part under its label. */
  lemma OnePartBlock(role: string, text: string)
    requires IsKeptRole(role) && text != [] && IsStripped(text)
    ensures Block(OnePartNode(role, text)) == Some(Label(role) + text + "\n")
  {
    StripStripped(text);
    assert Join([text], PartSeparator) == text;
  }

  /** A question and its answer become a user block and an assistant block, in that order. */
  lemma QuestionAnswerBlocks(q: string, a: string)
    requires q != [] && IsStripped(q) && a != [] && IsStripped(a)
    ensures Extracted([OnePartNode("user", q), OnePartNode("assistant", a)])
         == ["**User:**\n" + q + "\n", "**Assistant:**\n" + a + "\n"]
  {
    var nodes := [OnePartNode("user", q), OnePartNode("assistant", a)];
    OnePartBlock("user", q);
    OnePartBlock("assistant", a);
    assert nodes[..0] == [];
    FilterMapStep(nodes, 0, Block);
    FilterMapStep(nodes, 1, Block);
    assert nodes[..2] == nodes;
  }

  /**
   * Worked example: a conversation titled `Test`, created at
   * `2024-01-01T00:00:00Z`, where the user says `Hi` and the assistant
   * answers `Hello`.
   */
  predicate IsExample(c: Conversation) {
    && c.title == Some("Test")
    && c.createTime == Some("2024-01-01T00:00:00Z")
    && c.nodes == [OnePartNode("user", "Hi"), OnePartNode("assistant", "Hello")]
  }

  /**
   * Its body is the heading, the `*Created:*` line, the user block, a rule
   * and the assistant block.
   */
  lemma ExampleBody(c: Conversation)
    requires IsExample(c)
    ensures Body(Title(c), CreatedRaw(c), Extracted(c.nodes))
         == "# " + "Test" + "\n\n" + "*Created:* " + "2024-01-01T00:00:00Z" + "\n\n"
            + ("**User:**\n" + "Hi" + "\n") + "\n---\n\n" + ("**Assistant:**\n" + "Hello" + "\n")
  {
    assert IsStripped("Hi") && IsStripped("Hello");
    QuestionAnswerBlocks("Hi", "Hello");
    TwoBlockBody("Test", "2024-01-01T00:00:00Z", "**User:**\n" + "Hi" + "\n", "**Assistant:**\n" + "Hello" + "\n");
  }

  /** With a creation time and two blocks, the body is the heading, the date line, and the blocks around one rule. */
  lemma TwoBlockBody(title: string, createdRaw: string, x: string, y: string)
    requires createdRaw != ""
    ensures Body(title, createdRaw, [x, y])
         == "# " + title + "\n\n" + "*Created:* " + createdRaw + "\n\n" + x + BlockSeparator + y
  {
    JoinSnoc([x], y, BlockSeparator);
    assert [x] + [y] == [x, y];
  }

  /**
   * By default a conversation whose title is one word of at most 100
   * characters, none of them reserved, is saved under that word and `.md`
   * (the title `Test` as `Test.md`).
   */
  lemma OneWordFileName(c: Conversation, fromIsoFormat: string -> Option<string>)
    requires c.title.Some? && 0 < |c.title.value| <= MaxNameLength
    requires NoSpace(c.title.value) && NoReserved(c.title.value)
    ensures FileName(c, fromIsoFormat, AddDatePrefixToFilename) == c.title.value + ".md"
  {
    DefaultFileName(c, fromIsoFormat);
    SanitizeWord(c.title.value);
  }

  /** The worked example is saved as `Test.md`. */
  lemma ExampleFileName(c: Conversation, fromIsoFormat: string -> Option<string>)
    requires IsExample(c)
    ensures FileName(c, fromIsoFormat, AddDatePrefixToFilename) == "Test" + ".md"
  {
    TestIsWord();
    OneWordFileName(c, fromIsoFormat);
  }

  /** `Test` is one word, with no reserved character and nothing that forces YAML quoting. */
  lemma TestIsWord()
    ensures 0 < |"Test"| <= MaxNameLength && NoSpace("Test") && NoReserved("Test")
  {
    var t := "Test";
    assert t[0] == 'T' && t[1] == 'e' && t[2] == 's' && t[3] == 't';
  }

  lemma TestIsPlain()
    ensures YamlEscape(Some("Test")) == "Test"
  {
    var t := "Test";
    assert t[0] == 'T' && t[1] == 'e' && t[2] == 's' && t[3] == 't';
    LettersWrittenPlain(t);
  }

  /**
   * The worked example in full, given a parser that reads its timestamp as
   * 2024-01-01 and a record without an id: the front matter has the plain
   * title, the quoted date and an empty id, and the body follows.
   */
  lemma ExampleDocument(c: Conversation, fromIsoFormat: string -> Option<string>)
    requires IsExample(c) && c.id == None && c.conversationId == None
    requires fromIsoFormat("2024-01-01T00:00:00" + "+00:00") == Some("2024-01-01")
    ensures Document(c, fromIsoFormat)
         == "---" + "\n" + ("title: " + "Test") + "\n" + ("date: " + ("\"" + "2024-01-01" + "\"")) + "\n" + "tags: [chatgpt, export]"
            + "\n" + "participants: [user, assistant]" + "\n" + "source: chatgpt"
            + "\n" + ("conversation_id: " + "\"\"") + "\n" + "---" + "\n" + ""
            + ("# " + "Test" + "\n\n" + "*Created:* " + "2024-01-01T00:00:00Z" + "\n\n"
               + ("**User:**\n" + "Hi" + "\n") + "\n---\n\n" + ("**Assistant:**\n" + "Hello" + "\n"))
  {
    TestIsPlain();
    ExampleStamp();
    ZuluStampDate(c, fromIsoFormat, "2024-01-01T00:00:00", "2024-01-01");
    ExampleBody(c);
    DocumentIs(c, fromIsoFormat, "Test", "\"" + "2024-01-01" + "\"", "\"\"",
      "# " + "Test" + "\n\n" + "*Created:* " + "2024-01-01T00:00:00Z" + "\n\n"
      + ("**User:**\n" + "Hi" + "\n") + "\n---\n\n" + ("**Assistant:**\n" + "Hello" + "\n"));
  }

  /** The example's timestamp holds no `Z` before its last character, and its date is `YYYY-MM-DD`. */
  lemma ExampleStamp()
    ensures forall i :: 0 <= i < |"2024-01-01T00:00:00"| ==> "2024-01-01T00:00:00"[i] != 'Z'
    ensures "2024-01-01T00:00:00" + "Z" == "2024-01-01T00:00:00Z"
    ensures IsIsoDate("2024-01-01")
  {
  }

  /** The document, once the three front-matter values and the body are known. */
  lemma DocumentIs(c: Conversation, fromIsoFormat: string -> Option<string>, t: string, d: string, i: string, body: string)
    requires YamlEscape(Some(Title(c))) == t && FieldValue(CreatedDate(c, fromIsoFormat)) == d
    requires FieldValue(ConversationId(c)) == i
    requires Body(Title(c), CreatedRaw(c), Extracted(c.nodes)) == body
    ensures Document(c, fromIsoFormat)
         == "---" + "\n" + ("title: " + t) + "\n" + ("date: " + d) + "\n" + "tags: [chatgpt, export]"
            + "\n" + "participants: [user, assistant]" + "\n" + "source: chatgpt"
            + "\n" + ("conversation_id: " + i) + "\n" + "---" + "\n" + "" + body
  {
    var r := Document(c, fromIsoFormat);
    assert r == r[..|r| - |body|] + r[|r| - |body|..];
  }

  /** With the default configuration the file name is the sanitised title and `.md`. */
  lemma DefaultFileName(c: Conversation, fromIsoFormat: string -> Option<string>)
    ensures FileName(c, fromIsoFormat, AddDatePrefixToFilename) == SanitizeFilename(Title(c)) + ".md"
  {
  }

  /**
   * A creation time written with a trailing `Z`, as the export writes UTC
   * times, reaches the parser with `+00:00` in its place; the date the
   * parser gives is written on the date line in double quotes.
   */
  lemma ZuluStampDate(c: Conversation, fromIsoFormat: string -> Option<string>, stamp: string, d: string)
    requires forall i :: 0 <= i < |stamp| ==> stamp[i] != 'Z'
    requires c.createTime == Some(stamp + "Z")
    requires fromIsoFormat(stamp + "+00:00") == Some(d) && IsIsoDate(d)
    ensures CreatedDate(c, fromIsoFormat) == d
    ensures FieldValue(CreatedDate(c, fromIsoFormat)) == "\"" + d + "\""
  {
    ZuluSuffix(stamp);
    DateIsQuoted(d);
  }

  /**
   * With the default configuration, no date prefix: two conversations get
   * the same file name exactly when their titles sanitise alike.
   */
  lemma DefaultNamesCollide(c1: Conversation, c2: Conversation, fromIsoFormat: string -> Option<string>)
    ensures FileName(c1, fromIsoFormat, AddDatePrefixToFilename) == FileName(c2, fromIsoFormat, AddDatePrefixToFilename)
        <==> SanitizeFilename(Title(c1)) == SanitizeFilename(Title(c2))
  {
    var a, b := SanitizeFilename(Title(c1)), SanitizeFilename(Title(c2));
    if a + ".md" == b + ".md" {
      assert a == (a + ".md")[..|a|];
      assert b == (b + ".md")[..|b|];
    }
  }

  // ---- The export run ----

  /** The file writes of a run, in order: one (name, content) pair per conversation. */
  function Outputs(convs: seq<Conversation>, fromIsoFormat: string -> Option<string>, addDatePrefix: bool)
    : seq<(string, string)>
  {
    Map(convs, c => (FileName(c, fromIsoFormat, addDatePrefix), Document(c, fromIsoFormat)))
  }

  /**
   * The output directory after performing the writes in order on `dir`:
   * each write creates its file or overwrites the one already there.
   */
  function WriteAll(dir: map<string, string>, writes: seq<(string, string)>): map<string, string> {
    if writes == [] then dir
    else
      var w := writes[|writes| - 1];
      WriteAll(dir, writes[..|writes| - 1])[w.0 := w.1]
  }

  /** `files` is the directory once the first `i` conversations are written. */
  ghost predicate WrittenUpTo(files: map<string, string>, dir: map<string, string>, convs: seq<Conversation>, i: nat,
                              fromIsoFormat: string -> Option<string>, addDatePrefix: bool)
    requires i <= |convs|
  {
    files == WriteAll(dir, Outputs(convs[..i], fromIsoFormat, addDatePrefix))
  }

  /**
   * The run: one file per conversation into the output directory `dir`,
   * counting the conversations exported.
   */
  method ExportAll(conversations: seq<Conversation>, fromIsoFormat: string -> Option<string>,
                   addDatePrefix: bool, dir: map<string, string>)
    returns (files: map<string, string>, exported: nat)
    ensures exported == |conversations|
    ensures files == WriteAll(dir, Outputs(conversations, fromIsoFormat, addDatePrefix))
  {
    files := dir;
    exported := 0;
    for i := 0 to |conversations|
      invariant exported == i
      invariant WrittenUpTo(files, dir, conversations, i, fromIsoFormat, addDatePrefix)
    {
      files := WriteNext(conversations, i, fromIsoFormat, addDatePrefix, dir, files);
      exported := exported + 1;
    }
    assert conversations[..|conversations|] == conversations;
  }

  /**
   * One pass of the loop: export conversation `i` and write its file over
   * what the run has written so far.
   */
  method WriteNext(convs: seq<Conversation>, i: nat, fromIsoFormat: string -> Option<string>,
                   addDatePrefix: bool, dir: map<string, string>, files: map<string, string>)
    returns (next: map<string, string>)
    requires i < |convs|
    requires WrittenUpTo(files, dir, convs, i, fromIsoFormat, addDatePrefix)
    ensures WrittenUpTo(next, dir, convs, i + 1, fromIsoFormat, addDatePrefix)
  {
    var name, content := ExportConversation(convs[i], fromIsoFormat, addDatePrefix);
    ExportStep(convs, i, fromIsoFormat, addDatePrefix, dir, files);
    next := files[name := content];
  }

  /** One more conversation exported: its file is written over what the run wrote so far. */
  lemma ExportStep(convs: seq<Conversation>, i: nat, fromIsoFormat: string -> Option<string>,
                   addDatePrefix: bool, dir: map<string, string>, files: map<string, string>)
    requires i < |convs|
    requires files == WriteAll(dir, Outputs(convs[..i], fromIsoFormat, addDatePrefix))
    ensures files[FileName(convs[i], fromIsoFormat, addDatePrefix) := Document(convs[i], fromIsoFormat)]
         == WriteAll(dir, Outputs(convs[..i + 1], fromIsoFormat, addDatePrefix))
  {
    var w := (FileName(convs[i], fromIsoFormat, addDatePrefix), Document(convs[i], fromIsoFormat));
    OutputsStep(convs, i, fromIsoFormat, addDatePrefix);
    WriteAllSnoc(dir, Outputs(convs[..i], fromIsoFormat, addDatePrefix), w);
  }

  lemma OutputsStep(convs: seq<Conversation>, i: nat,
                    fromIsoFormat: string -> Option<string>, addDatePrefix: bool)
    requires i < |convs|
    ensures Outputs(convs[..i + 1], fromIsoFormat, addDatePrefix)
         == Outputs(convs[..i], fromIsoFormat, addDatePrefix)
            + [(FileName(convs[i], fromIsoFormat, addDatePrefix), Document(convs[i], fromIsoFormat))]
  {
    MapStep(convs, i, c => (FileName(c, fromIsoFormat, addDatePrefix), Document(c, fromIsoFormat)));
  }

  lemma WriteAllSnoc(dir: map<string, string>, writes: seq<(string, string)>, w: (string, string))
    ensures WriteAll(dir, writes + [w]) == WriteAll(dir, writes)[w.0 := w.1]
  {
    assert (writes + [w])[..|writes|] == writes;
  }

  /** Write `j` is the last one to the file `name`. */
  predicate IsLastWrite(writes: seq<(string, string)>, name: string, j: int) {
    0 <= j < |writes| && writes[j].0 == name
    && forall l :: j < l < |writes| ==> writes[l].0 != name
  }

  /**
   * Writes that share a file name overwrite one another, as conversations
   * whose titles sanitise alike do. A file exists afterwards exactly when it
   * did before or some write names it.
   */
  lemma {:induction false} WriteAllFiles(dir: map<string, string>, writes: seq<(string, string)>, name: string)
    ensures name in WriteAll(dir, writes) <==>
      name in dir || exists j :: 0 <= j < |writes| && writes[j].0 == name
  {
    if writes != [] {
      var n := |writes|;
      var init := writes[..n - 1];
      WriteAllFiles(dir, init, name);
      assert forall j :: 0 <= j < n - 1 ==> init[j] == writes[j];
    }
  }

  /** A file holds the content of the last write to it. */
  lemma {:induction false} LastWriteWins(dir: map<string, string>, writes: seq<(string, string)>, name: string, j: int)
    requires IsLastWrite(writes, name, j)
    ensures name in WriteAll(dir, writes) && WriteAll(dir, writes)[name] == writes[j].1
  {
    var n := |writes|;
    if j < n - 1 {
      var init := writes[..n - 1];
      assert IsLastWrite(init, name, j) by {
        assert forall l :: j < l < n - 1 ==> init[l] == writes[l];
      }
      LastWriteWins(dir, init, name, j);
    }
  }

  /** A file that no write names is left as it was. */
  lemma {:induction false} WriteAllUntouched(dir: map<string, string>, writes: seq<(string, string)>, name: string)
    requires name in dir
    requires forall j :: 0 <= j < |writes| ==> writes[j].0 != name
    ensures name in WriteAll(dir, writes) && WriteAll(dir, writes)[name] == dir[name]
  {
    if writes != [] {
      var n := |writes|;
      var init := writes[..n - 1];
      assert forall j :: 0 <= j < n - 1 ==> init[j] == writes[j];
      WriteAllUntouched(dir, init, name);
    }
  }

  /** The run writes one file per conversation, in order: the j-th write is conversation j's name and document. */
  lemma OutputsAt(convs: seq<Conversation>, fromIsoFormat: string -> Option<string>, addDatePrefix: bool)
    ensures |Outputs(convs, fromIsoFormat, addDatePrefix)| == |convs|
    ensures forall j :: 0 <= j < |convs| ==>
      Outputs(convs, fromIsoFormat, addDatePrefix)[j]
      == (FileName(convs[j], fromIsoFormat, addDatePrefix), Document(convs[j], fromIsoFormat))
  {
    MapAt(convs, c => (FileName(c, fromIsoFormat, addDatePrefix), Document(c, fromIsoFormat)));
  }

  /** After the run, a file exists exactly when it existed before or some conversation is saved under its name. */
  lemma RunFiles(convs: seq<Conversation>, fromIsoFormat: string -> Option<string>, addDatePrefix: bool,
                 dir: map<string, string>, name: string)
    ensures name in WriteAll(dir, Outputs(convs, fromIsoFormat, addDatePrefix)) <==>
      name in dir || exists j :: 0 <= j < |convs| && FileName(convs[j], fromIsoFormat, addDatePrefix) == name
  {
    WriteAllMapFiles(dir, convs, c => (FileName(c, fromIsoFormat, addDatePrefix), Document(c, fromIsoFormat)), name);
  }

  /** `WriteAllFiles` for writes made one per element of a sequence. */
  lemma WriteAllMapFiles<T>(dir: map<string, string>, xs: seq<T>, g: T -> (string, string), name: string)
    ensures name in WriteAll(dir, Map(xs, g)) <==> name in dir || exists j :: 0 <= j < |xs| && g(xs[j]).0 == name
  {
    var writes := Map(xs, g);
    MapAt(xs, g);
    WriteAllFiles(dir, writes, name);
    if exists j :: 0 <= j < |writes| && writes[j].0 == name {
      var j :| 0 <= j < |writes| && writes[j].0 == name;
      assert g(xs[j]).0 == name;
    }
    if exists j :: 0 <= j < |xs| && g(xs[j]).0 == name {
      var j :| 0 <= j < |xs| && g(xs[j]).0 == name;
      assert writes[j].0 == name;
    }
  }

  /**
   * When no later conversation gets the same file name, the file holds this
   * conversation's document: the last conversation under a name wins.
   */
  lemma LastConversationWins(convs: seq<Conversation>, fromIsoFormat: string -> Option<string>, addDatePrefix: bool,
                             dir: map<string, string>, j: int)
    requires 0 <= j < |convs|
    requires forall l :: j < l < |convs| ==>
      FileName(convs[l], fromIsoFormat, addDatePrefix) != FileName(convs[j], fromIsoFormat, addDatePrefix)
    ensures var files := WriteAll(dir, Outputs(convs, fromIsoFormat, addDatePrefix));
      var name := FileName(convs[j], fromIsoFormat, addDatePrefix);
      name in files && files[name] == Document(convs[j], fromIsoFormat)
  {
    var writes := Outputs(convs, fromIsoFormat, addDatePrefix);
    OutputsAt(convs, fromIsoFormat, addDatePrefix);
    LastWriteWins(dir, writes, FileName(convs[j], fromIsoFormat, addDatePrefix), j);
  }

}
