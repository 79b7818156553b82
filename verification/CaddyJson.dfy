/** JSON trees, and how Caddy configs are written and read: empty fields are left out, and members are
    decoded, one after the other, into whatever the ones before have left. */
module CaddyJson {
  import opened Text
  import opened Sequences
  import opened CaddyRoutes

  datatype Json =
    | Null
    | Bool(b: bool)
    | Number(n: int)
    | String(s: string)
    | Array(items: seq<Json>)
    | Object(members: map<string, Json>)

  type JsonObject = map<string, Json>

  // ---- Writing ----

  function Put(m: JsonObject, present: bool, key: string, value: Json): JsonObject {
    if present then m[key := value] else m
  }

  function EncodeStrings(values: seq<string>): Json {
    Array(seq(|values|, i requires 0 <= i < |values| => String(values[i])))
  }

  function EncodeMatch(m: Match): Json {
    var o := Put(map[], m.host != [], "host", EncodeStrings(m.host));
    var o := Put(o, m.pathPrefix != [], "path_prefix", EncodeStrings(m.pathPrefix));
    Object(Put(o, m.pathExact != [], "path_exact", EncodeStrings(m.pathExact)))
  }

  function EncodeUpstream(dial: string): Json {
    Object(map["dial" := String(dial)])
  }

  function EncodeSubstring(u: URISubstring): Json {
    var o := Put(map[], u.find != "", "find", String(u.find));
    Object(Put(o, u.replace != "", "replace", String(u.replace)))
  }

  function EncodeEncodings(names: set<string>): Json {
    Object(map name | name in names :: Object(map[]))
  }

  function EncodeList<T>(values: seq<T>, encode: T -> Json): Json {
    Array(Map(values, encode))
  }

  function EncodeHandlerJson(h: Handler): Json {
    var o: JsonObject := map["handler" := String(h.handler)];
    var o := Put(o, h.encodings != {}, "encodings", EncodeEncodings(h.encodings));
    var o := Put(o, h.upstreams != [], "upstreams", EncodeList(h.upstreams, EncodeUpstream));
    var o := Put(o, h.stripPathPrefix != "", "strip_path_prefix", String(h.stripPathPrefix));
    Object(Put(o, h.uriSubstring != [], "uri_substring", EncodeList(h.uriSubstring, EncodeSubstring)))
  }

  function EncodeRule(rule: RouteRule): Json {
    var o := Put(map[], rule.matches != [], "match", EncodeList(rule.matches, EncodeMatch));
    var o := Put(o, rule.handle != [], "handle", EncodeList(rule.handle, EncodeHandlerJson));
    Object(Put(o, rule.terminal, "terminal", Bool(rule.terminal)))
  }

  function EncodeRules(rules: seq<RouteRule>): (items: seq<Json>)
    ensures |items| == |rules|
  {
    Map(rules, EncodeRule)
  }

  function EncodeServer(server: Server): Json {
    var o := Put(map[], server.listen != [], "listen", EncodeStrings(server.listen));
    Object(Put(o, server.routes != [], "routes", Array(EncodeRules(server.routes))))
  }

  function EncodeConfig(config: Config): Json {
    var servers := map name | name in config.servers :: EncodeServer(config.servers[name]);
    Object(map["apps" := Object(map["http" := Object(map["servers" := Object(servers)])])])
  }

  // ---- Reading ----

  /** The names under which an object has a member, its letters in any case. */
  function Spellings(m: JsonObject, key: string): (names: set<string>)
    ensures names <= m.Keys
  {
    set name | name in m && EqualFold(name, key)
  }

  lemma {:induction false} LastNameExists(names: set<string>)
    requires names != {}
    ensures exists name :: name in names && forall other | other in names :: !StrLess(name, other)
  {
    StrLessTotalOrder();
    var some :| some in names;
    if names - {some} == {} {
      assert names == {some};
    } else {
      LastNameExists(names - {some});
      var last :| last in names - {some} && forall other | other in names - {some} :: !StrLess(last, other);
      var greater := if StrLess(last, some) then some else last;
      assert forall other | other in names :: other == some || other in names - {some};
      assert greater in names && forall other | other in names :: !StrLess(greater, other);
    }
  }

  /** The last of some names in byte order. */
  function LastName(names: set<string>): (name: string)
    requires names != {}
    ensures name in names && forall other | other in names :: !StrLess(name, other)
  {
    StrLessTotalOrder();
    LastNameExists(names);
    var name :| name in names && forall other | other in names :: !StrLess(name, other);
    name
  }

  /** Decodes some members of an object into one value, in the order of their names. */
  function MembersInto<T>(m: JsonObject, names: set<string>, prev: T, into: (T, Json) -> T): T
    requires names <= m.Keys
  {
    if names == {} then prev
    else
      var last := LastName(names);
      into(MembersInto(m, names - {last}, prev, into), m[last])
  }

  /** A field takes every member that spells its name, one after the other. */
  function FieldInto<T>(m: JsonObject, key: string, prev: T, into: (T, Json) -> T): (r: T)
    ensures Spellings(m, key) == {} ==> r == prev
    ensures Spellings(m, key) == {key} ==> r == into(prev, m[key])
  {
    var names := Spellings(m, key);
    assert names == {key} ==> LastName(names) == key && names - {key} == {} && MembersInto(m, names - {key}, prev, into) == prev;
    MembersInto(m, names, prev, into)
  }

  predicate FieldFits(m: JsonObject, key: string, fits: Json -> bool) {
    forall name | name in Spellings(m, key) :: fits(m[name])
  }

  /** A decoded list: the elements that show, and those that a longer list left behind them. */
  datatype Slots<T> = Slots(shown: seq<T>, spare: seq<T>) {
    function Cells(): (cells: seq<T>)
      ensures shown == [] && spare == [] ==> cells == []
    {
      shown + spare
    }
  }

  /** Each item is decoded into the element that stands in its place. */
  function ItemsInto<T>(cells: seq<T>, items: seq<Json>, zero: T, into: (T, Json) -> T): (r: seq<T>)
    ensures |r| == |items|
  {
    seq(|items|, i requires 0 <= i < |items| => into(if i < |cells| then cells[i] else zero, items[i]))
  }

  function ListInto<T>(prev: Slots<T>, j: Json, zero: T, into: (T, Json) -> T): Slots<T> {
    match j
    case Null => Slots([], [])
    case Array(items) =>
      if items == [] then Slots([], [])
      else Slots(ItemsInto(prev.Cells(), items, zero, into), if |items| < |prev.Cells()| then prev.Cells()[|items|..] else [])
    case _ => prev
  }

  predicate ListFits(j: Json, fits: Json -> bool) {
    j.Null? || (j.Array? && forall i | 0 <= i < |j.items| :: fits(j.items[i]))
  }

  /** Null leaves a string, a number of fields or a flag as it is, and empties a list or a map. */
  function StringInto(prev: string, j: Json): string {
    if j.String? then j.s else prev
  }

  predicate StringFits(j: Json) {
    j.Null? || j.String?
  }

  function StringsInto(prev: Slots<string>, j: Json): Slots<string> {
    ListInto(prev, j, "", StringInto)
  }

  predicate StringsFit(j: Json) {
    ListFits(j, StringFits)
  }

  function BoolInto(prev: bool, j: Json): bool {
    if j.Bool? then j.b else prev
  }

  predicate BoolFits(j: Json) {
    j.Null? || j.Bool?
  }

  datatype MatchState = MatchState(host: Slots<string>, pathPrefix: Slots<string>, pathExact: Slots<string>) {
    function Seen(): Match { Match(host.shown, pathPrefix.shown, pathExact.shown) }
  }

  const NO_MATCH := MatchState(Slots([], []), Slots([], []), Slots([], []))

  function MatchInto(prev: MatchState, j: Json): MatchState {
    if !j.Object? then prev
    else MatchState(FieldInto(j.members, "host", prev.host, StringsInto),
                    FieldInto(j.members, "path_prefix", prev.pathPrefix, StringsInto),
                    FieldInto(j.members, "path_exact", prev.pathExact, StringsInto))
  }

  predicate MatchFits(j: Json) {
    j.Null? || (j.Object? && FieldFits(j.members, "host", StringsFit)
                && FieldFits(j.members, "path_prefix", StringsFit) && FieldFits(j.members, "path_exact", StringsFit))
  }

  function SeenMatch(m: MatchState): Match {
    m.Seen()
  }

  function UpstreamInto(prev: string, j: Json): string {
    if j.Object? then FieldInto(j.members, "dial", prev, StringInto) else prev
  }

  predicate UpstreamFits(j: Json) {
    j.Null? || (j.Object? && FieldFits(j.members, "dial", StringFits))
  }

  function UpstreamsInto(prev: Slots<string>, j: Json): Slots<string> {
    ListInto(prev, j, "", UpstreamInto)
  }

  predicate UpstreamsFit(j: Json) {
    ListFits(j, UpstreamFits)
  }

  const NO_SUBSTRING := URISubstring("", "")

  function SubstringInto(prev: URISubstring, j: Json): URISubstring {
    if j.Object?
    then URISubstring(FieldInto(j.members, "find", prev.find, StringInto), FieldInto(j.members, "replace", prev.replace, StringInto))
    else prev
  }

  predicate SubstringFits(j: Json) {
    j.Null? || (j.Object? && FieldFits(j.members, "find", StringFits) && FieldFits(j.members, "replace", StringFits))
  }

  function SubstringsInto(prev: Slots<URISubstring>, j: Json): Slots<URISubstring> {
    ListInto(prev, j, NO_SUBSTRING, SubstringInto)
  }

  predicate SubstringsFit(j: Json) {
    ListFits(j, SubstringFits)
  }

  function EncodingsInto(prev: set<string>, j: Json): set<string> {
    if j.Null? then {} else if j.Object? then prev + j.members.Keys else prev
  }

  predicate EncodingsFit(j: Json) {
    j.Null? || (j.Object? && forall k | k in j.members :: j.members[k].Null? || j.members[k].Object?)
  }

  datatype HandlerState = HandlerState(
    handler: string,
    encodings: set<string>,
    upstreams: Slots<string>,
    stripPathPrefix: string,
    uriSubstring: Slots<URISubstring>)
  {
    function Seen(): Handler { Handler(handler, encodings, upstreams.shown, stripPathPrefix, uriSubstring.shown) }
  }

  const NO_HANDLER := HandlerState("", {}, Slots([], []), "", Slots([], []))

  function HandlerInto(prev: HandlerState, j: Json): HandlerState {
    if !j.Object? then prev
    else HandlerState(FieldInto(j.members, "handler", prev.handler, StringInto),
                      FieldInto(j.members, "encodings", prev.encodings, EncodingsInto),
                      FieldInto(j.members, "upstreams", prev.upstreams, UpstreamsInto),
                      FieldInto(j.members, "strip_path_prefix", prev.stripPathPrefix, StringInto),
                      FieldInto(j.members, "uri_substring", prev.uriSubstring, SubstringsInto))
  }

  predicate HandlerFits(j: Json) {
    j.Null? || (j.Object? && FieldFits(j.members, "handler", StringFits) && FieldFits(j.members, "encodings", EncodingsFit)
                && FieldFits(j.members, "upstreams", UpstreamsFit) && FieldFits(j.members, "strip_path_prefix", StringFits)
                && FieldFits(j.members, "uri_substring", SubstringsFit))
  }

  function SeenHandler(h: HandlerState): Handler {
    h.Seen()
  }

  datatype RuleState = RuleState(matches: Slots<MatchState>, handle: Slots<HandlerState>, terminal: bool) {
    function Seen(): RouteRule { RouteRule(Map(matches.shown, SeenMatch), Map(handle.shown, SeenHandler), terminal) }
  }

  const NO_RULE := RuleState(Slots([], []), Slots([], []), false)

  function MatchesInto(prev: Slots<MatchState>, j: Json): Slots<MatchState> {
    ListInto(prev, j, NO_MATCH, MatchInto)
  }

  predicate MatchesFit(j: Json) {
    ListFits(j, MatchFits)
  }

  function HandlersInto(prev: Slots<HandlerState>, j: Json): Slots<HandlerState> {
    ListInto(prev, j, NO_HANDLER, HandlerInto)
  }

  predicate HandlersFit(j: Json) {
    ListFits(j, HandlerFits)
  }

  function RuleInto(prev: RuleState, j: Json): RuleState {
    if !j.Object? then prev
    else RuleState(FieldInto(j.members, "match", prev.matches, MatchesInto),
                   FieldInto(j.members, "handle", prev.handle, HandlersInto),
                   FieldInto(j.members, "terminal", prev.terminal, BoolInto))
  }

  predicate RuleFits(j: Json) {
    j.Null? || (j.Object? && FieldFits(j.members, "match", MatchesFit)
                && FieldFits(j.members, "handle", HandlersFit) && FieldFits(j.members, "terminal", BoolFits))
  }

  function SeenRule(r: RuleState): RouteRule {
    r.Seen()
  }

  function RulesInto(prev: Slots<RuleState>, j: Json): Slots<RuleState> {
    ListInto(prev, j, NO_RULE, RuleInto)
  }

  predicate RulesFit(j: Json) {
    ListFits(j, RuleFits)
  }

  /** The rule that one JSON tree is read as. */
  function DecodeRule(j: Json): Option<RouteRule> {
    if RuleFits(j) then Some(RuleInto(NO_RULE, j).Seen()) else None
  }

  function ReadServer(j: Json): Server {
    if !j.Object? then Server([], [])
    else Server(FieldInto(j.members, "listen", Slots([], []), StringsInto).shown,
                Map(FieldInto(j.members, "routes", Slots([], []), RulesInto).shown, SeenRule))
  }

  predicate ServerFits(j: Json) {
    j.Null? || (j.Object? && FieldFits(j.members, "listen", StringsFit) && FieldFits(j.members, "routes", RulesFit))
  }

  /** The members of a map are decoded afresh, and join those that are there. */
  function ServersInto(prev: map<string, Server>, j: Json): map<string, Server> {
    if j.Null? then map[]
    else if j.Object? then prev + map k | k in j.members :: ReadServer(j.members[k])
    else prev
  }

  predicate ServersFit(j: Json) {
    j.Null? || (j.Object? && forall k | k in j.members :: ServerFits(j.members[k]))
  }

  function HttpInto(prev: map<string, Server>, j: Json): map<string, Server> {
    if j.Object? then FieldInto(j.members, "servers", prev, ServersInto) else prev
  }

  predicate HttpFits(j: Json) {
    j.Null? || (j.Object? && FieldFits(j.members, "servers", ServersFit))
  }

  function AppsInto(prev: map<string, Server>, j: Json): map<string, Server> {
    if j.Object? then FieldInto(j.members, "http", prev, HttpInto) else prev
  }

  predicate AppsFit(j: Json) {
    j.Null? || (j.Object? && FieldFits(j.members, "http", HttpFits))
  }

  function ConfigInto(prev: map<string, Server>, j: Json): map<string, Server> {
    if j.Object? then FieldInto(j.members, "apps", prev, AppsInto) else prev
  }

  predicate ConfigFits(j: Json) {
    j.Null? || (j.Object? && FieldFits(j.members, "apps", AppsFit))
  }

  function DecodeConfig(j: Json): Option<Config> {
    if ConfigFits(j) then Some(Config(ConfigInto(map[], j))) else None
  }

  // ---- Spellings ----

  /** No name of the object has a capital letter. */
  predicate LowerNamed(m: JsonObject) {
    forall name | name in m :: IsLower(name)
  }

  lemma OneSpelling(m: JsonObject)
    requires LowerNamed(m)
    ensures forall key :: IsLower(key) ==> Spellings(m, key) == if key in m then {key} else {}
  {
    forall key | IsLower(key) ensures Spellings(m, key) == if key in m then {key} else {} {
      LowerIdempotent(key);
      forall name | name in m && EqualFold(name, key) ensures name == key {
        LowerIdempotent(name);
      }
    }
  }

  lemma {:induction false} LowerIsLast(name: string, key: string)
    requires EqualFold(name, key) && IsLower(key)
    ensures !StrLess(key, name)
  {
    LowerIdempotent(key);
    assert ToLower(name) == key;
    if key != [] && name != [] {
      assert ToLower(name)[0] == LowerChar(name[0]);
      assert ToLower(name[1..]) == key[1..];
      LowerIdempotent(key[1..]);
      LowerIsLast(name[1..], key[1..]);
    }
  }

  /** A member spelled in lower case is decoded after the other spellings of its name. */
  lemma LowerComesLast<T>(m: JsonObject, key: string, prev: T, into: (T, Json) -> T)
    requires IsLower(key) && key in m
    ensures FieldInto(m, key, prev, into) == into(MembersInto(m, Spellings(m, key) - {key}, prev, into), m[key])
  {
    assert key in Spellings(m, key);
    var last := LastName(Spellings(m, key));
    LowerIsLast(last, key);
    StrLessTotal(last, key);
  }

  lemma {:induction false} MembersAlike<T>(m: JsonObject, other: JsonObject, names: set<string>, prev: T, into: (T, Json) -> T)
    requires names <= m.Keys && names <= other.Keys && forall name | name in names :: m[name] == other[name]
    ensures MembersInto(m, names, prev, into) == MembersInto(other, names, prev, into)
    decreases |names|
  {
    if names != {} {
      MembersAlike(m, other, names - {LastName(names)}, prev, into);
    }
  }

  lemma RuleNamesAreLower()
    ensures IsLower("host") && IsLower("path_prefix") && IsLower("path_exact")
    ensures IsLower("match") && IsLower("handle") && IsLower("terminal")
  {
  }

  lemma ServerNamesAreLower()
    ensures IsLower("apps") && IsLower("http") && IsLower("servers") && IsLower("listen") && IsLower("routes")
  {
  }

  lemma HandlerNamesAreLower()
    ensures IsLower("handler") && IsLower("encodings") && IsLower("upstreams")
    ensures IsLower("strip_path_prefix") && IsLower("uri_substring")
  {
  }

  lemma PartNamesAreLower()
    ensures IsLower("dial") && IsLower("find") && IsLower("replace")
  {
  }

  // ---- Reading back what was written ----

  lemma ReadEncodedList<T>(values: seq<T>, encode: T -> Json, zero: T, into: (T, Json) -> T, fits: Json -> bool)
    requires forall v :: v in values ==> fits(encode(v)) && into(zero, encode(v)) == v
    ensures ListFits(EncodeList(values, encode), fits)
    ensures ListInto(Slots([], []), EncodeList(values, encode), zero, into) == Slots(values, [])
  {
    var items := EncodeList(values, encode).items;
    forall i | 0 <= i < |items| ensures fits(items[i]) && into(zero, items[i]) == values[i] {
      assert values[i] in values;
    }
    assert ItemsInto([], items, zero, into) == values;
  }

  lemma ReadEncodedStates<T, S>(values: seq<T>, encode: T -> Json, zero: S, into: (S, Json) -> S, fits: Json -> bool, seen: S -> T)
    requires forall v :: v in values ==> fits(encode(v)) && seen(into(zero, encode(v))) == v
    ensures ListFits(EncodeList(values, encode), fits)
    ensures Map(ListInto(Slots([], []), EncodeList(values, encode), zero, into).shown, seen) == values
  {
    var items := EncodeList(values, encode).items;
    forall i | 0 <= i < |items| ensures fits(items[i]) && seen(into(zero, items[i])) == values[i] {
      assert values[i] in values;
    }
    assert Map(ItemsInto([], items, zero, into), seen) == values;
  }

  lemma ReadEncodedStrings(values: seq<string>)
    ensures StringsFit(EncodeStrings(values)) && StringsInto(Slots([], []), EncodeStrings(values)) == Slots(values, [])
  {
    var items := EncodeStrings(values).items;
    forall i | 0 <= i < |items| ensures StringFits(items[i]) && StringInto("", items[i]) == values[i] {
    }
    assert ItemsInto([], items, "", StringInto) == values;
  }

  lemma ReadEncodedMatch(m: Match)
    ensures MatchFits(EncodeMatch(m)) && SeenMatch(MatchInto(NO_MATCH, EncodeMatch(m))) == m
  {
    RuleNamesAreLower();
    hide Spellings, IsLower, EncodeStrings, FieldInto, StringsInto, StringsFit;
    OneSpelling(EncodeMatch(m).members);
    ReadEncodedStrings(m.host);
    ReadEncodedStrings(m.pathPrefix);
    ReadEncodedStrings(m.pathExact);
  }

  lemma ReadEncodedUpstreams(dials: seq<string>)
    ensures var j := EncodeList(dials, EncodeUpstream); UpstreamsFit(j) && UpstreamsInto(Slots([], []), j) == Slots(dials, [])
  {
    PartNamesAreLower();
    hide Spellings, IsLower, FieldInto;
    forall dial ensures UpstreamFits(EncodeUpstream(dial)) && UpstreamInto("", EncodeUpstream(dial)) == dial {
      OneSpelling(EncodeUpstream(dial).members);
    }
    ReadEncodedList(dials, EncodeUpstream, "", UpstreamInto, UpstreamFits);
  }

  lemma ReadEncodedSubstrings(substrings: seq<URISubstring>)
    ensures var j := EncodeList(substrings, EncodeSubstring); SubstringsFit(j) && SubstringsInto(Slots([], []), j) == Slots(substrings, [])
  {
    PartNamesAreLower();
    hide Spellings, IsLower, FieldInto;
    forall u ensures SubstringFits(EncodeSubstring(u)) && SubstringInto(NO_SUBSTRING, EncodeSubstring(u)) == u {
      OneSpelling(EncodeSubstring(u).members);
    }
    ReadEncodedList(substrings, EncodeSubstring, NO_SUBSTRING, SubstringInto, SubstringFits);
  }

  lemma ReadEncodedEncodings(names: set<string>)
    ensures EncodingsFit(EncodeEncodings(names)) && EncodingsInto({}, EncodeEncodings(names)) == names
  {
    assert EncodeEncodings(names).members.Keys == names;
  }

  /** The members that a handler is written with, and under no other spelling. */
  lemma HandlerMembers(h: Handler)
    ensures var m := EncodeHandlerJson(h).members;
            && Spellings(m, "handler") == {"handler"} && m["handler"] == String(h.handler)
            && Spellings(m, "encodings") == (if h.encodings != {} then {"encodings"} else {})
            && (h.encodings != {} ==> m["encodings"] == EncodeEncodings(h.encodings))
            && Spellings(m, "upstreams") == (if h.upstreams != [] then {"upstreams"} else {})
            && (h.upstreams != [] ==> m["upstreams"] == EncodeList(h.upstreams, EncodeUpstream))
  {
    HandlerNamesAreLower();
    hide Spellings, IsLower, EncodeList, EncodeUpstream, EncodeSubstring;
    OneSpelling(EncodeHandlerJson(h).members);
  }

  lemma RewriteMembers(h: Handler)
    ensures var m := EncodeHandlerJson(h).members;
            && Spellings(m, "strip_path_prefix") == (if h.stripPathPrefix != "" then {"strip_path_prefix"} else {})
            && (h.stripPathPrefix != "" ==> m["strip_path_prefix"] == String(h.stripPathPrefix))
            && Spellings(m, "uri_substring") == (if h.uriSubstring != [] then {"uri_substring"} else {})
            && (h.uriSubstring != [] ==> m["uri_substring"] == EncodeList(h.uriSubstring, EncodeSubstring))
  {
    HandlerNamesAreLower();
    hide Spellings, IsLower, EncodeList, EncodeUpstream, EncodeSubstring;
    OneSpelling(EncodeHandlerJson(h).members);
  }

  /** A field that is written only when it is present reads back. */
  lemma FieldReads<T>(m: JsonObject, key: string, present: bool, written: Json, value: T, zero: T, into: (T, Json) -> T, fits: Json -> bool)
    requires Spellings(m, key) == if present then {key} else {}
    requires if present then key in m && m[key] == written && fits(written) && into(zero, written) == value else value == zero
    ensures FieldFits(m, key, fits) && FieldInto(m, key, zero, into) == value
  {
    hide Spellings;
  }

  lemma HandlerFields(h: Handler)
    ensures var m := EncodeHandlerJson(h).members;
            && FieldFits(m, "handler", StringFits) && FieldInto(m, "handler", "", StringInto) == h.handler
            && FieldFits(m, "encodings", EncodingsFit) && FieldInto(m, "encodings", {}, EncodingsInto) == h.encodings
            && FieldFits(m, "upstreams", UpstreamsFit) && FieldInto(m, "upstreams", Slots([], []), UpstreamsInto) == Slots(h.upstreams, [])
  {
    var m := EncodeHandlerJson(h).members;
    HandlerMembers(h);
    ReadEncodedEncodings(h.encodings);
    ReadEncodedUpstreams(h.upstreams);
    hide Spellings, FieldInto, FieldFits, EncodeList, EncodeHandlerJson;
    hide EncodeEncodings, EncodingsInto, EncodingsFit, UpstreamsInto, UpstreamsFit;
    FieldReads(m, "handler", true, String(h.handler), h.handler, "", StringInto, StringFits);
    FieldReads(m, "encodings", h.encodings != {}, EncodeEncodings(h.encodings), h.encodings, {}, EncodingsInto, EncodingsFit);
    FieldReads(m, "upstreams", h.upstreams != [], EncodeList(h.upstreams, EncodeUpstream), Slots(h.upstreams, []), Slots([], []),
               UpstreamsInto, UpstreamsFit);
  }

  lemma RewriteFields(h: Handler)
    ensures var m := EncodeHandlerJson(h).members;
            && FieldFits(m, "strip_path_prefix", StringFits) && FieldInto(m, "strip_path_prefix", "", StringInto) == h.stripPathPrefix
            && FieldFits(m, "uri_substring", SubstringsFit)
            && FieldInto(m, "uri_substring", Slots([], []), SubstringsInto) == Slots(h.uriSubstring, [])
  {
    var m := EncodeHandlerJson(h).members;
    RewriteMembers(h);
    ReadEncodedSubstrings(h.uriSubstring);
    hide Spellings, FieldInto, FieldFits, EncodeList, EncodeHandlerJson, SubstringsInto, SubstringsFit;
    FieldReads(m, "strip_path_prefix", h.stripPathPrefix != "", String(h.stripPathPrefix), h.stripPathPrefix, "", StringInto, StringFits);
    FieldReads(m, "uri_substring", h.uriSubstring != [], EncodeList(h.uriSubstring, EncodeSubstring), Slots(h.uriSubstring, []), Slots([], []),
               SubstringsInto, SubstringsFit);
  }

  lemma ReadEncodedHandler(h: Handler)
    ensures HandlerFits(EncodeHandlerJson(h)) && SeenHandler(HandlerInto(NO_HANDLER, EncodeHandlerJson(h))) == h
  {
    assert EncodeHandlerJson(h).Object?;
    hide FieldInto, FieldFits, EncodeHandlerJson;
    HandlerFields(h);
    RewriteFields(h);
  }

  /** Reading undoes writing for every rule. */
  lemma DecodeEncodedRule(rule: RouteRule)
    ensures DecodeRule(EncodeRule(rule)) == Some(rule)
  {
    RuleNamesAreLower();
    hide Spellings, IsLower, FieldInto, EncodeMatch, MatchInto, MatchFits;
    hide EncodeHandlerJson, HandlerInto, HandlerFits, EncodeList, ListFits, ListInto;
    OneSpelling(EncodeRule(rule).members);
    forall m | m in rule.matches ensures MatchFits(EncodeMatch(m)) && SeenMatch(MatchInto(NO_MATCH, EncodeMatch(m))) == m {
      ReadEncodedMatch(m);
    }
    forall h | h in rule.handle ensures HandlerFits(EncodeHandlerJson(h)) && SeenHandler(HandlerInto(NO_HANDLER, EncodeHandlerJson(h))) == h {
      ReadEncodedHandler(h);
    }
    ReadEncodedStates(rule.matches, EncodeMatch, NO_MATCH, MatchInto, MatchFits, SeenMatch);
    ReadEncodedStates(rule.handle, EncodeHandlerJson, NO_HANDLER, HandlerInto, HandlerFits, SeenHandler);
  }

  lemma ReadEncodedServer(server: Server)
    ensures ServerFits(EncodeServer(server)) && ReadServer(EncodeServer(server)) == server
  {
    ServerNamesAreLower();
    hide Spellings, IsLower, FieldInto, EncodeRule, RuleInto;
    hide RuleFits, EncodeStrings, StringsInto, StringsFit, ListFits, ListInto;
    OneSpelling(EncodeServer(server).members);
    ReadEncodedStrings(server.listen);
    forall r | r in server.routes ensures RuleFits(EncodeRule(r)) && SeenRule(RuleInto(NO_RULE, EncodeRule(r))) == r {
      DecodeEncodedRule(r);
    }
    ReadEncodedStates(server.routes, EncodeRule, NO_RULE, RuleInto, RuleFits, SeenRule);
    assert EncodeList(server.routes, EncodeRule) == Array(EncodeRules(server.routes));
  }

  lemma ReadEncodedServers(servers: map<string, Server>)
    ensures var j := Object(map name | name in servers :: EncodeServer(servers[name]));
            ServersFit(j) && ServersInto(map[], j) == servers
  {
    hide EncodeServer, ReadServer, ServerFits;
    var encoded := map name | name in servers :: EncodeServer(servers[name]);
    forall name | name in servers ensures ServerFits(encoded[name]) && ReadServer(encoded[name]) == servers[name] {
      ReadEncodedServer(servers[name]);
    }
    assert ServersInto(map[], Object(encoded)) == servers;
  }

  /** A field alone in its object. */
  lemma OnlyField(key: string, j: Json)
    requires IsLower(key)
    ensures Spellings(map[key := j], key) == {key}
  {
    OneSpelling(map[key := j]);
  }

  lemma DecodeEncodedConfig(config: Config)
    ensures DecodeConfig(EncodeConfig(config)) == Some(config)
  {
    ServerNamesAreLower();
    hide Spellings, IsLower, FieldInto, ServersInto, ServersFit;
    ReadEncodedServers(config.servers);
    var servers := Object(map name | name in config.servers :: EncodeServer(config.servers[name]));
    OnlyField("servers", servers);
    OnlyField("http", Object(map["servers" := servers]));
    OnlyField("apps", Object(map["http" := Object(map["servers" := servers])]));
  }
}
