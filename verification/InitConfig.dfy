/** The configuration file the command line writes, and what the configuration parser makes of it. */
module InitConfig {
  import opened Wrappers
  import opened YamlText
  import opened YamlParser
  import opened YamlRoundTrip
  import opened YamlTrees
  import SyntheticIds

  // ----- quoting -----

  predicate Letter(c: char) {
    'A' <= c <= 'Z' || 'a' <= c <= 'z'
  }

  predicate BareUnit(c: char) {
    Letter(c) || '0' <= c <= '9' || c == '_' || c == '.' || c == '/' || c == ':' || c == '-'
  }

  predicate Bare(s: string) {
    s != "" && forall i :: 0 <= i < |s| ==> BareUnit(s[i])
  }

  /** Characters a JSON string literal cannot hold as they are. */
  predicate Escaped(c: char) {
    c == '\"' || c == '\\' || c < ' '
  }

  function Hex(d: nat): char
    requires d < 16
  {
    if d < 10 then ('0' as int + d) as char else ('a' as int + d - 10) as char
  }

  function EscapeChar(c: char): (r: string)
    ensures if Escaped(c) then |r| > 1 && OneLine(r) else r == [c]
  {
    if c == '\"' then "\\\""
    else if c == '\\' then "\\\\"
    else if c as int == 8 then "\\b"
    else if c as int == 12 then "\\f"
    else if c == '\n' then "\\n"
    else if c == '\r' then "\\r"
    else if c == '\t' then "\\t"
    else if c < ' ' then "\\u00" + [Hex(c as int / 16), Hex(c as int % 16)]
    else [c]
  }

  function EscapeAll(s: string): (r: string)
    ensures |r| >= |s| && OneLine(r)
    ensures |r| == |s| <==> forall i :: 0 <= i < |s| ==> !Escaped(s[i])
    ensures |r| == |s| ==> r == s
  {
    if s == "" then ""
    else
      assert s == [s[0]] + s[1..];
      assert forall i :: 0 < i < |s| ==> s[i] == s[1..][i - 1];
      assert (forall i :: 0 <= i < |s| ==> !Escaped(s[i])) <==>
             (!Escaped(s[0]) && forall i :: 0 <= i < |s[1..]| ==> !Escaped(s[1..][i]));
      EscapeChar(s[0]) + EscapeAll(s[1..])
  }

  function QuoteYaml(value: string): string {
    if Bare(value) then value else "\"" + EscapeAll(value) + "\""
  }

  /** When a quoted value comes back as the string it was: bare, it must not read as a word or a number;
      between quotes, nothing in it may need escaping, for the parser does not undo escapes. */
  predicate Survives(value: string) {
    if Bare(value) then !Reserved(value) && !NumberLike(value)
    else forall i :: 0 <= i < |value| ==> !Escaped(value[i])
  }

  lemma {:induction false} BareIsOneLine(s: string)
    requires Bare(s)
    ensures OneLine(s) && Trimmed(s) && !Quoted(s) && !OpensQuote(s) && s[0] != '[' && s[0] != '{'
    ensures IndexOfPair(s, ' ', '#') == -1 && IndexOfPair(s, ':', ' ') == -1
  {
  }

  lemma QuoteYamlSurvives(value: string)
    ensures GoodLeaf(QuoteYaml(value)) && ReadScalar(QuoteYaml(value)) == Ok(Text(value)) <==> Survives(value)
  {
    if Bare(value) {
      BareIsOneLine(value);
      PlainExactly(value);
      hide NumberLike, ReadScalar, ValueText, Quoted, Reserved, OneLine, Trimmed;
    } else {
      QuotedReads(EscapeAll(value));
      hide ReadScalar, GoodLeaf;
    }
  }

  // ----- the file -----

  datatype Config = Config(profile: string, apiVersion: string, baseUrl: string, wabaId: string, phoneNumberId: string,
                           accessToken: string, path: string, verifyToken: string, appSecret: string, maxBodyBytes: nat,
                           host: string, port: nat, apiPrefix: string, bearerToken: string)

  function FileLines(c: Config): seq<string> {
    [
      PairLine(0, "version", "1"),
      PairLine(0, "defaultProfile", QuoteYaml(c.profile)),
      HeaderLine(0, "profiles"),
      HeaderLine(2, QuoteYaml(c.profile)),
      HeaderLine(4, "graph"),
      PairLine(6, "apiVersion", c.apiVersion),
      PairLine(6, "baseUrl", c.baseUrl),
      HeaderLine(4, "whatsapp"),
      PairLine(6, "wabaId", "\"" + c.wabaId + "\""),
      PairLine(6, "phoneNumberId", "\"" + c.phoneNumberId + "\""),
      HeaderLine(4, "auth"),
      HeaderLine(6, "accessToken"),
      PairLine(8, "env", c.accessToken),
      HeaderLine(4, "webhook"),
      PairLine(6, "path", c.path),
      HeaderLine(6, "verifyToken"),
      PairLine(8, "env", c.verifyToken),
      HeaderLine(6, "appSecret"),
      PairLine(8, "env", c.appSecret),
      PairLine(6, "maxBodyBytes", SyntheticIds.Decimal(c.maxBodyBytes)),
      HeaderLine(4, "service"),
      PairLine(6, "host", c.host),
      PairLine(6, "port", SyntheticIds.Decimal(c.port)),
      PairLine(6, "apiPrefix", c.apiPrefix),
      HeaderLine(6, "bearerToken"),
      PairLine(8, "env", c.bearerToken)
    ]
  }

  function FormatInitYaml(c: Config): string {
    Unlines(FileLines(c))
  }

  /** The configuration as a tree, which is what a reader of the file should get. */
  function ConfigTree(c: Config): seq<Entry> {
    [Entry("version", Number("1")), Entry("defaultProfile", Text(c.profile)),
     Entry("profiles", Map([Entry(c.profile, ProfileTree(c))]))]
  }

  function ProfileTree(c: Config): Node {
    Map([Entry("graph", GraphTree(c)), Entry("whatsapp", WhatsAppTree(c)),
         Entry("auth", Map([Entry("accessToken", EnvTree(c.accessToken))])),
         Entry("webhook", WebhookTree(c)), Entry("service", ServiceTree(c))])
  }

  function EnvTree(name: string): Node {
    Map([Entry("env", Text(name))])
  }

  function GraphTree(c: Config): Node {
    Map([Entry("apiVersion", Text(c.apiVersion)), Entry("baseUrl", Text(c.baseUrl))])
  }

  function WhatsAppTree(c: Config): Node {
    Map([Entry("wabaId", Text(c.wabaId)), Entry("phoneNumberId", Text(c.phoneNumberId))])
  }

  function WebhookTree(c: Config): Node {
    Map([Entry("path", Text(c.path)), Entry("verifyToken", EnvTree(c.verifyToken)),
         Entry("appSecret", EnvTree(c.appSecret)), Entry("maxBodyBytes", Number(SyntheticIds.Decimal(c.maxBodyBytes)))])
  }

  function ServiceTree(c: Config): Node {
    Map([Entry("host", Text(c.host)), Entry("port", Number(SyntheticIds.Decimal(c.port))),
         Entry("apiPrefix", Text(c.apiPrefix)), Entry("bearerToken", EnvTree(c.bearerToken))])
  }

  // ----- the file as a document -----

  function ConfigDoc(c: Config): seq<Field> {
    [Field("version", Leaf("1")), Field("defaultProfile", Leaf(QuoteYaml(c.profile))),
     Field("profiles", Block([Field(QuoteYaml(c.profile), ProfileDoc(c))]))]
  }

  function ProfileDoc(c: Config): Doc {
    Block([Field("graph", GraphDoc(c)), Field("whatsapp", WhatsAppDoc(c)),
           Field("auth", Block([Field("accessToken", EnvDoc(c.accessToken))])),
           Field("webhook", WebhookDoc(c)), Field("service", ServiceDoc(c))])
  }

  function EnvDoc(name: string): Doc {
    Block([Field("env", Leaf(name))])
  }

  function GraphDoc(c: Config): Doc {
    Block([Field("apiVersion", Leaf(c.apiVersion)), Field("baseUrl", Leaf(c.baseUrl))])
  }

  function WhatsAppDoc(c: Config): Doc {
    Block([Field("wabaId", Leaf("\"" + c.wabaId + "\"")), Field("phoneNumberId", Leaf("\"" + c.phoneNumberId + "\""))])
  }

  function WebhookDoc(c: Config): Doc {
    Block([Field("path", Leaf(c.path)), Field("verifyToken", EnvDoc(c.verifyToken)),
           Field("appSecret", EnvDoc(c.appSecret)), Field("maxBodyBytes", Leaf(SyntheticIds.Decimal(c.maxBodyBytes)))])
  }

  function ServiceDoc(c: Config): Doc {
    Block([Field("host", Leaf(c.host)), Field("port", Leaf(SyntheticIds.Decimal(c.port))),
           Field("apiPrefix", Leaf(c.apiPrefix)), Field("bearerToken", EnvDoc(c.bearerToken))])
  }

  // ----- blocks, field by field -----

  lemma {:induction false} OneLeaf(key: string, raw: string, indent: nat)
    ensures FieldLines(Field(key, Leaf(raw)), indent, 2) == [PairLine(indent, key, raw)]
  {
  }

  lemma {:induction false} OneBlock(key: string, fields: seq<Field>, indent: nat)
    ensures FieldLines(Field(key, Block(fields)), indent, 2) == [HeaderLine(indent, key)] + BlockLines(fields, indent + 2, 2)
  {
  }

  lemma {:induction false} LinesOf1(a: Field, indent: nat)
    ensures BlockLines([a], indent, 2) == FieldLines(a, indent, 2)
  {
  }

  lemma {:induction false} LinesOf2(a: Field, b: Field, indent: nat)
    ensures BlockLines([a, b], indent, 2) == FieldLines(a, indent, 2) + FieldLines(b, indent, 2)
  {
    hide FieldLines;
    assert [a, b][1..] == [b];
    LinesOf1(b, indent);
  }

  lemma {:induction false} LinesOf3(a: Field, b: Field, c: Field, indent: nat)
    ensures BlockLines([a, b, c], indent, 2) == FieldLines(a, indent, 2) + FieldLines(b, indent, 2) + FieldLines(c, indent, 2)
  {
    hide FieldLines;
    assert [a, b, c][1..] == [b, c];
    LinesOf2(b, c, indent);
  }

  lemma {:induction false} LinesOf4(a: Field, b: Field, c: Field, d: Field, indent: nat)
    ensures BlockLines([a, b, c, d], indent, 2) ==
            FieldLines(a, indent, 2) + FieldLines(b, indent, 2) + FieldLines(c, indent, 2) + FieldLines(d, indent, 2)
  {
    hide FieldLines;
    assert [a, b, c, d][1..] == [b, c, d];
    LinesOf3(b, c, d, indent);
  }

  lemma {:induction false} LinesOf5(a: Field, b: Field, c: Field, d: Field, e: Field, indent: nat)
    ensures BlockLines([a, b, c, d, e], indent, 2) ==
            FieldLines(a, indent, 2) + FieldLines(b, indent, 2) + FieldLines(c, indent, 2) + FieldLines(d, indent, 2) +
            FieldLines(e, indent, 2)
  {
    hide FieldLines;
    assert [a, b, c, d, e][1..] == [b, c, d, e];
    LinesOf4(b, c, d, e, indent);
  }

  lemma {:induction false} EnvLines(key: string, name: string, indent: nat)
    ensures FieldLines(Field(key, EnvDoc(name)), indent, 2) == [HeaderLine(indent, key), PairLine(indent + 2, "env", name)]
  {
    hide FieldLines, BlockLines, PairLine, HeaderLine;
    OneBlock(key, [Field("env", Leaf(name))], indent);
    LinesOf1(Field("env", Leaf(name)), indent + 2);
    OneLeaf("env", name, indent + 2);
  }

  lemma GraphLines(c: Config)
    ensures FieldLines(Field("graph", GraphDoc(c)), 4, 2) ==
            [HeaderLine(4, "graph"), PairLine(6, "apiVersion", c.apiVersion), PairLine(6, "baseUrl", c.baseUrl)]
  {
    hide FieldLines, BlockLines, PairLine, HeaderLine;
    OneBlock("graph", GraphDoc(c).fields, 4);
    LinesOf2(Field("apiVersion", Leaf(c.apiVersion)), Field("baseUrl", Leaf(c.baseUrl)), 6);
    OneLeaf("apiVersion", c.apiVersion, 6);
    OneLeaf("baseUrl", c.baseUrl, 6);
  }

  lemma WhatsAppLines(c: Config)
    ensures FieldLines(Field("whatsapp", WhatsAppDoc(c)), 4, 2) ==
            [HeaderLine(4, "whatsapp"), PairLine(6, "wabaId", "\"" + c.wabaId + "\""),
             PairLine(6, "phoneNumberId", "\"" + c.phoneNumberId + "\"")]
  {
    hide FieldLines, BlockLines, PairLine, HeaderLine;
    OneBlock("whatsapp", WhatsAppDoc(c).fields, 4);
    LinesOf2(WhatsAppDoc(c).fields[0], WhatsAppDoc(c).fields[1], 6);
    OneLeaf("wabaId", "\"" + c.wabaId + "\"", 6);
    OneLeaf("phoneNumberId", "\"" + c.phoneNumberId + "\"", 6);
  }

  lemma AuthLines(c: Config)
    ensures FieldLines(Field("auth", Block([Field("accessToken", EnvDoc(c.accessToken))])), 4, 2) ==
            [HeaderLine(4, "auth"), HeaderLine(6, "accessToken"), PairLine(8, "env", c.accessToken)]
  {
    hide FieldLines, BlockLines, PairLine, HeaderLine, EnvDoc;
    OneBlock("auth", [Field("accessToken", EnvDoc(c.accessToken))], 4);
    LinesOf1(Field("accessToken", EnvDoc(c.accessToken)), 6);
    EnvLines("accessToken", c.accessToken, 6);
  }

  lemma WebhookLines(c: Config)
    ensures FieldLines(Field("webhook", WebhookDoc(c)), 4, 2) ==
            [HeaderLine(4, "webhook"), PairLine(6, "path", c.path), HeaderLine(6, "verifyToken"),
             PairLine(8, "env", c.verifyToken), HeaderLine(6, "appSecret"), PairLine(8, "env", c.appSecret),
             PairLine(6, "maxBodyBytes", SyntheticIds.Decimal(c.maxBodyBytes))]
  {
    hide FieldLines, BlockLines, PairLine, HeaderLine, EnvDoc, SyntheticIds.Decimal;
    var fields := WebhookDoc(c).fields;
    OneBlock("webhook", fields, 4);
    LinesOf4(fields[0], fields[1], fields[2], fields[3], 6);
    OneLeaf("path", c.path, 6);
    EnvLines("verifyToken", c.verifyToken, 6);
    EnvLines("appSecret", c.appSecret, 6);
    OneLeaf("maxBodyBytes", SyntheticIds.Decimal(c.maxBodyBytes), 6);
  }

  lemma ServiceLines(c: Config)
    ensures FieldLines(Field("service", ServiceDoc(c)), 4, 2) ==
            [HeaderLine(4, "service"), PairLine(6, "host", c.host), PairLine(6, "port", SyntheticIds.Decimal(c.port)),
             PairLine(6, "apiPrefix", c.apiPrefix), HeaderLine(6, "bearerToken"), PairLine(8, "env", c.bearerToken)]
  {
    hide FieldLines, BlockLines, PairLine, HeaderLine, EnvDoc, SyntheticIds.Decimal;
    var fields := ServiceDoc(c).fields;
    OneBlock("service", fields, 4);
    LinesOf4(fields[0], fields[1], fields[2], fields[3], 6);
    OneLeaf("host", c.host, 6);
    OneLeaf("port", SyntheticIds.Decimal(c.port), 6);
    OneLeaf("apiPrefix", c.apiPrefix, 6);
    EnvLines("bearerToken", c.bearerToken, 6);
  }

  /** The lines under the profile's name. */
  function ProfileLines(c: Config): seq<string> {
    FieldLines(Field("graph", GraphDoc(c)), 4, 2) + FieldLines(Field("whatsapp", WhatsAppDoc(c)), 4, 2) +
    FieldLines(Field("auth", Block([Field("accessToken", EnvDoc(c.accessToken))])), 4, 2) +
    FieldLines(Field("webhook", WebhookDoc(c)), 4, 2) + FieldLines(Field("service", ServiceDoc(c)), 4, 2)
  }

  lemma ConfigLines(c: Config)
    ensures BlockLines(ConfigDoc(c), 0, 2) ==
            [PairLine(0, "version", "1"), PairLine(0, "defaultProfile", QuoteYaml(c.profile)), HeaderLine(0, "profiles"),
             HeaderLine(2, QuoteYaml(c.profile))] + ProfileLines(c)
  {
    hide FieldLines, BlockLines, PairLine, HeaderLine, EnvDoc, QuoteYaml, GraphDoc, WhatsAppDoc, WebhookDoc, ServiceDoc;
    var name, fields, inner := QuoteYaml(c.profile), ConfigDoc(c), ProfileDoc(c).fields;
    LinesOf3(fields[0], fields[1], fields[2], 0);
    OneLeaf("version", "1", 0);
    OneLeaf("defaultProfile", name, 0);
    OneBlock("profiles", [Field(name, ProfileDoc(c))], 0);
    LinesOf1(Field(name, ProfileDoc(c)), 2);
    OneBlock(name, inner, 2);
    LinesOf5(inner[0], inner[1], inner[2], inner[3], inner[4], 4);
  }

  /** The template is the document, printed with two-space steps. */
  lemma FileIsPrinted(c: Config)
    ensures FormatInitYaml(c) == Print(ConfigDoc(c), 2)
  {
    ConfigLines(c);
    GraphLines(c);
    WhatsAppLines(c);
    AuthLines(c);
    WebhookLines(c);
    ServiceLines(c);
    hide Unlines, FieldLines, BlockLines, PairLine, HeaderLine, EnvDoc, QuoteYaml, GraphDoc, WhatsAppDoc, WebhookDoc, ServiceDoc,
      SyntheticIds.Decimal, ConfigDoc;
    assert FileLines(c) == BlockLines(ConfigDoc(c), 0, 2);
  }

  // ----- the document means the tree -----

  lemma LeafField(key: string, raw: string)
    requires PlainKey(key) && GoodLeaf(raw)
    ensures GoodField(Field(key, Leaf(raw)))
    ensures FieldMeaning(Field(key, Leaf(raw))) == Entry(key, ReadScalar(raw).value)
  {
  }

  lemma QuotedField(key: string, text: string)
    requires PlainKey(key) && OneLine(text)
    ensures GoodField(Field(key, Leaf("\"" + text + "\"")))
    ensures FieldMeaning(Field(key, Leaf("\"" + text + "\""))) == Entry(key, Text(text))
  {
  }

  lemma {:induction false} DecimalIsDigits(n: nat)
    ensures Digits(SyntheticIds.Decimal(n))
  {
    if n >= 10 {
      DecimalIsDigits(n / 10);
    }
  }

  lemma {:induction false} NumberField(key: string, n: nat)
    requires PlainKey(key)
    ensures GoodField(Field(key, Leaf(SyntheticIds.Decimal(n))))
    ensures FieldMeaning(Field(key, Leaf(SyntheticIds.Decimal(n)))) == Entry(key, Number(SyntheticIds.Decimal(n)))
  {
    hide PlainKey, Digits, SyntheticIds.Decimal;
    DecimalIsDigits(n);
    DigitsAreWordy(SyntheticIds.Decimal(n));
    DigitsAreANumber(SyntheticIds.Decimal(n));
    hide NumberLike, Wordy;
    NumberReads(SyntheticIds.Decimal(n));
    LeafField(key, SyntheticIds.Decimal(n));
  }

  lemma DigitsAreANumber(s: string)
    requires Digits(s)
    ensures NumberLike(s)
  {
  }

  lemma {:induction false} BlockField(key: string, fields: seq<Field>)
    requires PlainKey(key) && fields != [] && GoodFields(fields)
    ensures GoodField(Field(key, Block(fields)))
    ensures FieldMeaning(Field(key, Block(fields))) == Entry(key, Map(Meaning(fields)))
  {
  }

  lemma {:induction false} Good1(a: Field)
    requires GoodField(a)
    ensures GoodFields([a]) && Meaning([a]) == [FieldMeaning(a)]
  {
  }

  lemma {:induction false} Good2(a: Field, b: Field)
    requires GoodField(a) && GoodField(b) && a.key != b.key
    ensures GoodFields([a, b]) && Meaning([a, b]) == [FieldMeaning(a), FieldMeaning(b)]
  {
  }

  lemma {:induction false} Good3(a: Field, b: Field, c: Field)
    requires GoodField(a) && GoodField(b) && GoodField(c) && a.key != b.key && a.key != c.key && b.key != c.key
    ensures GoodFields([a, b, c]) && Meaning([a, b, c]) == [FieldMeaning(a), FieldMeaning(b), FieldMeaning(c)]
  {
    hide GoodField, FieldMeaning, GoodFields, Meaning;
    Good2(b, c);
    GoodCons(a, [b, c]);
    assert [a] + [b, c] == [a, b, c];
  }

  lemma {:induction false} Good4(a: Field, b: Field, c: Field, d: Field)
    requires GoodField(a) && GoodField(b) && GoodField(c) && GoodField(d)
    requires UniqueNames([a, b, c, d])
    ensures GoodFields([a, b, c, d])
    ensures Meaning([a, b, c, d]) == [FieldMeaning(a), FieldMeaning(b), FieldMeaning(c), FieldMeaning(d)]
  {
    hide GoodField, FieldMeaning, GoodFields, Meaning;
    var all := [a, b, c, d];
    assert all[0].key != all[1].key && all[0].key != all[2].key && all[0].key != all[3].key;
    assert all[1].key != all[2].key && all[1].key != all[3].key && all[2].key != all[3].key;
    Good3(b, c, d);
    GoodCons(a, [b, c, d]);
    assert [a] + [b, c, d] == [a, b, c, d];
  }

  predicate Word(s: string) {
    s != "" && forall i :: 0 <= i < |s| ==> Letter(s[i])
  }

  lemma WordIsKey(s: string)
    requires Word(s)
    ensures PlainKey(s)
  {
  }

  lemma TopKeysArePlain()
    ensures PlainKey("version") && PlainKey("defaultProfile") && PlainKey("profiles")
    ensures PlainKey("graph") && PlainKey("apiVersion") && PlainKey("baseUrl")
  {
    hide PlainKey;
    WordIsKey("version");
    WordIsKey("defaultProfile");
    WordIsKey("profiles");
    WordIsKey("graph");
    WordIsKey("apiVersion");
    WordIsKey("baseUrl");
  }

  lemma AccountKeysArePlain()
    ensures PlainKey("whatsapp") && PlainKey("wabaId") && PlainKey("phoneNumberId")
    ensures PlainKey("auth") && PlainKey("accessToken") && PlainKey("env")
  {
    hide PlainKey;
    WordIsKey("whatsapp");
    WordIsKey("wabaId");
    WordIsKey("phoneNumberId");
    WordIsKey("auth");
    WordIsKey("accessToken");
    WordIsKey("env");
  }

  lemma WebhookKeysArePlain()
    ensures PlainKey("webhook") && PlainKey("path") && PlainKey("verifyToken")
    ensures PlainKey("appSecret") && PlainKey("maxBodyBytes")
  {
    hide PlainKey;
    WordIsKey("webhook");
    WordIsKey("path");
    WordIsKey("verifyToken");
    WordIsKey("appSecret");
    WordIsKey("maxBodyBytes");
  }

  lemma ServiceKeysArePlain()
    ensures PlainKey("service") && PlainKey("host") && PlainKey("port")
    ensures PlainKey("apiPrefix") && PlainKey("bearerToken")
  {
    hide PlainKey;
    WordIsKey("service");
    WordIsKey("host");
    WordIsKey("port");
    WordIsKey("apiPrefix");
    WordIsKey("bearerToken");
  }

  predicate PlainText(s: string) {
    PlainScalar(s) && OneLine(s)
  }

  /** The strings the template writes as they are, are plain; the two ids stay on their line. */
  predicate PlainTexts(c: Config) {
    && PlainText(c.apiVersion) && PlainText(c.baseUrl) && OneLine(c.wabaId) && OneLine(c.phoneNumberId)
    && PlainText(c.accessToken) && PlainText(c.path) && PlainText(c.verifyToken) && PlainText(c.appSecret)
    && PlainText(c.host) && PlainText(c.apiPrefix) && PlainText(c.bearerToken)
  }

  lemma TextField(key: string, text: string)
    requires PlainKey(key) && PlainText(text)
    ensures GoodField(Field(key, Leaf(text))) && FieldMeaning(Field(key, Leaf(text))) == Entry(key, Text(text))
  {
  }

  lemma EnvMeans(key: string, name: string)
    requires PlainKey(key) && PlainText(name)
    ensures GoodField(Field(key, EnvDoc(name))) && FieldMeaning(Field(key, EnvDoc(name))) == Entry(key, EnvTree(name))
  {
    hide PlainKey, PlainText, GoodField, GoodFields, FieldMeaning, Meaning, OneLine;
    AccountKeysArePlain();
    TextField("env", name);
    Good1(Field("env", Leaf(name)));
    BlockField(key, [Field("env", Leaf(name))]);
  }

  lemma GraphMeans(c: Config)
    requires PlainTexts(c)
    ensures GoodField(Field("graph", GraphDoc(c))) && FieldMeaning(Field("graph", GraphDoc(c))) == Entry("graph", GraphTree(c))
  {
    hide PlainKey, PlainText, GoodField, GoodFields, FieldMeaning, Meaning, OneLine;
    TopKeysArePlain();
    TextField("apiVersion", c.apiVersion);
    TextField("baseUrl", c.baseUrl);
    Good2(GraphDoc(c).fields[0], GraphDoc(c).fields[1]);
    BlockField("graph", GraphDoc(c).fields);
  }

  lemma WhatsAppMeans(c: Config)
    requires PlainTexts(c)
    ensures GoodField(Field("whatsapp", WhatsAppDoc(c)))
    ensures FieldMeaning(Field("whatsapp", WhatsAppDoc(c))) == Entry("whatsapp", WhatsAppTree(c))
  {
    hide PlainKey, PlainText, GoodField, GoodFields, FieldMeaning, Meaning, OneLine;
    AccountKeysArePlain();
    QuotedField("wabaId", c.wabaId);
    QuotedField("phoneNumberId", c.phoneNumberId);
    Good2(WhatsAppDoc(c).fields[0], WhatsAppDoc(c).fields[1]);
    BlockField("whatsapp", WhatsAppDoc(c).fields);
  }

  lemma AuthMeans(c: Config)
    requires PlainTexts(c)
    ensures GoodField(Field("auth", Block([Field("accessToken", EnvDoc(c.accessToken))])))
    ensures FieldMeaning(Field("auth", Block([Field("accessToken", EnvDoc(c.accessToken))]))) ==
            Entry("auth", Map([Entry("accessToken", EnvTree(c.accessToken))]))
  {
    hide PlainKey, PlainText, GoodField, GoodFields, FieldMeaning, Meaning, OneLine;
    hide EnvDoc, EnvTree;
    AccountKeysArePlain();
    EnvMeans("accessToken", c.accessToken);
    Good1(Field("accessToken", EnvDoc(c.accessToken)));
    BlockField("auth", [Field("accessToken", EnvDoc(c.accessToken))]);
  }

  lemma WebhookMeans(c: Config)
    requires PlainTexts(c)
    ensures GoodField(Field("webhook", WebhookDoc(c)))
    ensures FieldMeaning(Field("webhook", WebhookDoc(c))) == Entry("webhook", WebhookTree(c))
  {
    hide PlainKey, PlainText, GoodField, GoodFields, FieldMeaning, Meaning, OneLine;
    hide EnvDoc, EnvTree, SyntheticIds.Decimal;
    WebhookKeysArePlain();
    var fields := WebhookDoc(c).fields;
    TextField("path", c.path);
    EnvMeans("verifyToken", c.verifyToken);
    EnvMeans("appSecret", c.appSecret);
    NumberField("maxBodyBytes", c.maxBodyBytes);
    Good4(fields[0], fields[1], fields[2], fields[3]);
    BlockField("webhook", fields);
  }

  lemma ServiceMeans(c: Config)
    requires PlainTexts(c)
    ensures GoodField(Field("service", ServiceDoc(c)))
    ensures FieldMeaning(Field("service", ServiceDoc(c))) == Entry("service", ServiceTree(c))
  {
    hide PlainKey, PlainText, GoodField, GoodFields, FieldMeaning, Meaning, OneLine;
    hide EnvDoc, EnvTree, SyntheticIds.Decimal;
    ServiceKeysArePlain();
    var fields := ServiceDoc(c).fields;
    TextField("host", c.host);
    NumberField("port", c.port);
    TextField("apiPrefix", c.apiPrefix);
    EnvMeans("bearerToken", c.bearerToken);
    Good4(fields[0], fields[1], fields[2], fields[3]);
    BlockField("service", fields);
  }

  lemma {:induction false} Good5(a: Field, b: Field, c: Field, d: Field, e: Field)
    requires GoodField(a) && GoodField(b) && GoodField(c) && GoodField(d) && GoodField(e)
    requires UniqueNames([a, b, c, d, e])
    ensures GoodFields([a, b, c, d, e])
    ensures Meaning([a, b, c, d, e]) == [FieldMeaning(a), FieldMeaning(b), FieldMeaning(c), FieldMeaning(d), FieldMeaning(e)]
  {
    hide *;
    var rest := [b, c, d, e];
    assert [a] + rest == [a, b, c, d, e];
    UniqueCons(a, rest);
    Good4(b, c, d, e);
    GoodCons(a, rest);
  }

  lemma UniqueCons(f: Field, rest: seq<Field>)
    requires UniqueNames([f] + rest)
    ensures UniqueNames(rest) && forall i :: 0 <= i < |rest| ==> rest[i].key != f.key
  {
    var all := [f] + rest;
    assert forall i :: 0 <= i < |rest| ==> rest[i] == all[i + 1];
    assert all[0] == f;
  }

  lemma ProfileFields(c: Config)
    requires PlainTexts(c)
    ensures GoodFields(ProfileDoc(c).fields) && Map(Meaning(ProfileDoc(c).fields)) == ProfileTree(c)
  {
    GraphMeans(c);
    WhatsAppMeans(c);
    AuthMeans(c);
    WebhookMeans(c);
    ServiceMeans(c);
    hide *;
    ProfileUnfolds(c);
    Good5(Field("graph", GraphDoc(c)), Field("whatsapp", WhatsAppDoc(c)),
          Field("auth", Block([Field("accessToken", EnvDoc(c.accessToken))])), Field("webhook", WebhookDoc(c)),
          Field("service", ServiceDoc(c)));
  }

  lemma ProfileUnfolds(c: Config)
    ensures ProfileDoc(c) == Block([Field("graph", GraphDoc(c)), Field("whatsapp", WhatsAppDoc(c)),
                                    Field("auth", Block([Field("accessToken", EnvDoc(c.accessToken))])),
                                    Field("webhook", WebhookDoc(c)), Field("service", ServiceDoc(c))])
    ensures UniqueNames(ProfileDoc(c).fields)
    ensures ProfileTree(c) == Map([Entry("graph", GraphTree(c)), Entry("whatsapp", WhatsAppTree(c)),
                                   Entry("auth", Map([Entry("accessToken", EnvTree(c.accessToken))])),
                                   Entry("webhook", WebhookTree(c)), Entry("service", ServiceTree(c))])
  {
  }

  lemma ProfileMeans(key: string, c: Config)
    requires PlainTexts(c) && PlainKey(key)
    ensures GoodField(Field(key, ProfileDoc(c))) && FieldMeaning(Field(key, ProfileDoc(c))) == Entry(key, ProfileTree(c))
  {
    hide *;
    ProfileFields(c);
    ProfileUnfolds(c);
    BlockField(key, ProfileDoc(c).fields);
  }

  /** A name that the template can use as a key. */
  predicate NameLike(s: string) {
    Bare(s) && ':' !in s
  }

  lemma NameIsKeyAndLeaf(s: string)
    requires NameLike(s)
    ensures PlainKey(s) && GoodLeaf(s) && QuoteYaml(s) == s
    ensures ReadScalar(s) == Ok(Text(s)) <==> !Reserved(s) && !NumberLike(s)
  {
    BareIsOneLine(s);
    TrimIsTrimmed(s);
    assert s[0] != '#';
    hide NumberLike, Trim, White, BareUnit;
  }

  function TreeRead(c: Config): seq<Entry> {
    var profile := ReadScalar(c.profile);
    [Entry("version", Number("1")), Entry("defaultProfile", if profile.Ok? then profile.value else Nothing),
     Entry("profiles", Map([Entry(c.profile, ProfileTree(c))]))]
  }

  /** What a generated file reads back as: the configuration, but for a default profile that reads as
      a word or a number instead of a name. */
  lemma ConfigReads(c: Config)
    requires NameLike(c.profile) && PlainTexts(c)
    ensures Parse(FormatInitYaml(c)) == Ok(TreeRead(c))
  {
    LeafIsOkIfNameLike(c.profile);
    hide ReadScalar, ProfileTree, Parse, FormatInitYaml, GoodFields, GoodField, Meaning, FieldMeaning, PlainTexts, NameLike, PlainKey,
      GoodLeaf, QuoteYaml, ConfigDoc, ProfileDoc;
    var fields := ConfigDocFields(c);
    TopKeysArePlain();
    NameIsKeyAndLeaf(c.profile);
    OneIsANumber();
    LeafField("version", "1");
    LeafField("defaultProfile", QuoteYaml(c.profile));
    ProfileMeans(c.profile, c);
    Good1(Field(c.profile, ProfileDoc(c)));
    BlockField("profiles", [Field(c.profile, ProfileDoc(c))]);
    Good3(fields[0], fields[1], fields[2]);
    FileIsPrinted(c);
    PrintedParses(ConfigDoc(c), 2);
  }

  lemma ConfigDocFields(c: Config) returns (fields: seq<Field>)
    requires NameLike(c.profile)
    ensures fields == ConfigDoc(c) == [Field("version", Leaf("1")), Field("defaultProfile", Leaf(QuoteYaml(c.profile))),
                                       Field("profiles", Block([Field(c.profile, ProfileDoc(c))]))]
  {
    hide ProfileDoc;
    fields := ConfigDoc(c);
  }

  lemma OneIsANumber()
    ensures GoodLeaf("1") && ReadScalar("1") == Ok(Number("1"))
  {
  }

  /** The generated file is read back as the configuration exactly when the profile's name reads as a
      name. */
  lemma ConfigRoundTrip(c: Config)
    requires NameLike(c.profile) && PlainTexts(c)
    ensures Parse(FormatInitYaml(c)) == Ok(ConfigTree(c)) <==> !Reserved(c.profile) && !NumberLike(c.profile)
  {
    hide PlainTexts, NameLike, Parse, FormatInitYaml, ProfileTree, ReadScalar, Reserved, NumberLike;
    ConfigReads(c);
    NameIsKeyAndLeaf(c.profile);
    var tree, read := ConfigTree(c), Parse(FormatInitYaml(c)).value;
    assert read == tree <==> read[1] == tree[1];
    LeafIsOk(c.profile);
  }

  lemma LeafIsOkIfNameLike(name: string)
    requires NameLike(name)
    ensures ReadScalar(name).Ok?
  {
    hide NameLike, ReadScalar;
    NameIsKeyAndLeaf(name);
    LeafIsOk(name);
  }

  lemma LeafIsOk(raw: string)
    requires GoodLeaf(raw)
    ensures ReadScalar(raw).Ok?
  {
  }

  // ----- the first configuration -----

  function Lower(s: string): (r: string)
    ensures |r| == |s|
  {
    seq(|s|, i requires 0 <= i < |s| => if 'A' <= s[i] <= 'Z' then (s[i] as int + 32) as char else s[i])
  }

  predicate Mentions(s: string, word: string) {
    exists i :: 0 <= i < |s| && WordAt(s, i, word)
  }

  predicate WordAt(s: string, i: nat, word: string) {
    i + |word| <= |s| && Lower(s[i..i + |word|]) == word
  }

  predicate SafeProfileName(s: string) {
    && 1 <= |s| <= 32 && Letter(s[0])
    && (forall i :: 0 <= i < |s| ==> Letter(s[i]) || '0' <= s[i] <= '9' || s[i] == '_' || s[i] == '-')
    && !Mentions(s, "token") && !Mentions(s, "secret") && !Mentions(s, "password")
  }

  function InitConfigObject(profile: string): Config {
    Config(profile, "v25.0", "https://graph.facebook.com", "000000000000000", "00000000000", "WATS_ACCESS_TOKEN",
           "/webhooks/whatsapp", "WATS_VERIFY_TOKEN", "WATS_APP_SECRET", 1048576, "127.0.0.1", 8787, "/api",
           "WATS_SERVICE_TOKEN")
  }

  /** A bare string that does not begin like a number or a word the parser keeps for itself. */
  lemma BareTextIsPlain(s: string)
    requires Bare(s) && !Reserved(s) && !NumberLike(s)
    ensures PlainText(s)
  {
    BareIsOneLine(s);
    hide NumberLike, Quoted, Reserved, White;
  }

  lemma NoNumber(s: string)
    requires s != "" && (s[0] > '9' || s[0] == '/')
    ensures !NumberLike(s)
  {
    if NumberLike(s) {
      NumberIsWordy(s);
      assert false;
    }
  }

  lemma TwoPoints(s: string, i: nat, j: nat)
    requires i < j < |s| && s[i] == '.' && s[j] == '.' && s[0] != '-'
    ensures !NumberLike(s)
  {
    assert !Digits(s);
    forall k | 0 <= k < |s| && s[k] == '.' ensures !(Digits(s[..k]) && Digits(s[k + 1..])) {
      if i < k {
        assert s[..k][i] == '.';
      } else {
        assert s[k + 1..][j - k - 1] == '.';
      }
    }
  }

  lemma AddressesArePlain()
    ensures PlainText("v25.0") && PlainText("https://graph.facebook.com") && PlainText("127.0.0.1")
  {
    hide PlainText, NumberLike;
    NoNumber("v25.0");
    NoNumber("https://graph.facebook.com");
    TwoPoints("127.0.0.1", 3, 5);
    BareTextIsPlain("v25.0");
    BareTextIsPlain("https://graph.facebook.com");
    BareTextIsPlain("127.0.0.1");
  }

  lemma VariablesArePlain()
    ensures PlainText("WATS_ACCESS_TOKEN") && PlainText("WATS_VERIFY_TOKEN") && PlainText("WATS_APP_SECRET")
    ensures PlainText("WATS_SERVICE_TOKEN")
  {
    hide PlainText, NumberLike;
    NoNumber("WATS_ACCESS_TOKEN");
    NoNumber("WATS_VERIFY_TOKEN");
    NoNumber("WATS_APP_SECRET");
    NoNumber("WATS_SERVICE_TOKEN");
    BareTextIsPlain("WATS_ACCESS_TOKEN");
    BareTextIsPlain("WATS_VERIFY_TOKEN");
    BareTextIsPlain("WATS_APP_SECRET");
    BareTextIsPlain("WATS_SERVICE_TOKEN");
  }

  lemma PathsArePlain()
    ensures PlainText("/webhooks/whatsapp") && PlainText("/api")
  {
    hide PlainText, NumberLike;
    NoNumber("/webhooks/whatsapp");
    NoNumber("/api");
    BareTextIsPlain("/webhooks/whatsapp");
    BareTextIsPlain("/api");
  }

  lemma IdsStayOnLine()
    ensures OneLine("000000000000000") && OneLine("00000000000")
  {
  }

  lemma InitTextsArePlain(profile: string)
    ensures PlainTexts(InitConfigObject(profile))
  {
    hide PlainText, OneLine;
    AddressesArePlain();
    VariablesArePlain();
    PathsArePlain();
    IdsStayOnLine();
  }

  lemma SafeNamesAreNames(profile: string)
    requires SafeProfileName(profile)
    ensures NameLike(profile) && !NumberLike(profile)
    ensures Reserved(profile) <==> profile == "true" || profile == "false" || profile == "null"
  {
  }

  /** The three names that do not come back are safe profile names. */
  lemma ReservedNamesAreSafe()
    ensures SafeProfileName("true") && SafeProfileName("false") && SafeProfileName("null")
  {
    assert Lower("false"[0..5])[0] == 'f';
  }

  /** The first configuration comes back as written for every safe profile name but three: a profile
      called true, false or null gets a default profile that is not a string. */
  lemma InitRoundTrip(profile: string)
    requires SafeProfileName(profile)
    ensures (Parse(FormatInitYaml(InitConfigObject(profile))) == Ok(ConfigTree(InitConfigObject(profile))) <==>
             profile != "true" && profile != "false" && profile != "null")
  {
    hide Parse, FormatInitYaml, ConfigTree, PlainTexts, NameLike, NumberLike, Reserved, SafeProfileName;
    InitTextsArePlain(profile);
    SafeNamesAreNames(profile);
    ConfigRoundTrip(InitConfigObject(profile));
  }
}
