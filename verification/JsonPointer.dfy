/** JSON Pointers in schema references (fsq_agent/agent_engine/_google_gemini_schema.py:38-76,
    122-135; RFC 6901, sections 3 and 4): which references a schema may contain. */
module JsonPointer {
  import opened Wrappers

  datatype Json = Scalar(text: string) | JList(items: seq<Json>) | JObject(fields: map<string, Json>)

  /** One step down in a document. */
  datatype Token = Key(key: string) | Index(n: nat)

  /** A position in a document; it stands for the identity of the node found there. */
  type Position = seq<Token>

  // ---- escaping ----

  /** The token of a key: "~" as "~0", then "/" as "~1". */
  function Escape(key: string): string {
    if key == "" then ""
    else (if key[0] == '~' then "~0" else if key[0] == '/' then "~1" else [key[0]]) + Escape(key[1..])
  }

  /** str.replace of a two-character text. */
  function Replace(text: string, first: char, second: char, put: char): string {
    if |text| >= 2 && text[0] == first && text[1] == second then [put] + Replace(text[2..], first, second, put)
    else if text == "" then ""
    else [text[0]] + Replace(text[1..], first, second, put)
  }

  function Unescape(token: string): string {
    Replace(Replace(token, '~', '1', '/'), '~', '0', '~')
  }

  /** Every "~" is followed by "0" or "1". */
  predicate WellEscaped(token: string) {
    forall i | 0 <= i < |token| && token[i] == '~' :: i + 1 < |token| && (token[i + 1] == '0' || token[i + 1] == '1')
  }

  /** Well-escaped tokens without "/", character by character. */
  predicate Escaped(token: string) {
    if token == "" then true
    else if token[0] == '~' then |token| >= 2 && (token[1] == '0' || token[1] == '1') && Escaped(token[2..])
    else token[0] != '/' && Escaped(token[1..])
  }

  lemma {:induction false} EscapedIff(token: string)
    ensures Escaped(token) <==> WellEscaped(token) && '/' !in token
    decreases |token|
  {
    if token != "" {
      if token[0] == '~' && |token| >= 2 && (token[1] == '0' || token[1] == '1') {
        EscapedIff(token[2..]);
        assert forall i | 2 <= i < |token| :: token[2..][i - 2] == token[i];
        assert forall i | 0 <= i < |token| - 2 :: token[i + 2] == token[2..][i];
      } else if token[0] != '~' {
        EscapedIff(token[1..]);
        assert forall i | 1 <= i < |token| :: token[1..][i - 1] == token[i];
        assert forall i | 0 <= i < |token| - 1 :: token[i + 1] == token[1..][i];
      }
    }
  }

  /** The two passes in their order decode one character at a time. */
  lemma {:induction false} UnescapeStep(token: string)
    requires Escaped(token) && token != ""
    ensures token[0] == '~' ==> Unescape(token) == (if token[1] == '0' then "~" else "/") + Unescape(token[2..])
    ensures token[0] != '~' ==> Unescape(token) == [token[0]] + Unescape(token[1..])
  {
    var once := Replace(token, '~', '1', '/');
    if token[0] == '~' && token[1] == '0' {
      assert token[1..][1..] == token[2..];
      assert Replace(token[1..], '~', '1', '/') == ['0'] + Replace(token[2..], '~', '1', '/');
      assert once == ['~'] + (['0'] + Replace(token[2..], '~', '1', '/'));
      assert once[2..] == Replace(token[2..], '~', '1', '/');
    } else if token[0] == '~' {
      assert once == ['/'] + Replace(token[2..], '~', '1', '/');
      assert once[1..] == Replace(token[2..], '~', '1', '/');
    } else {
      assert once == [token[0]] + Replace(token[1..], '~', '1', '/');
      assert once[1..] == Replace(token[1..], '~', '1', '/');
    }
  }

  /** Round trip from keys: every key has a token, and the token decodes to the key. */
  lemma {:induction false} EscapeThenUnescape(key: string)
    ensures Escaped(Escape(key)) && Unescape(Escape(key)) == key
  {
    if key != "" {
      EscapeThenUnescape(key[1..]);
      var token := Escape(key);
      if key[0] == '~' || key[0] == '/' {
        assert token[2..] == Escape(key[1..]);
      } else {
        assert token[1..] == Escape(key[1..]);
      }
      UnescapeStep(token);
    }
  }

  /** Round trip from tokens: there is only one way to write a key. */
  lemma {:induction false} UnescapeThenEscape(token: string)
    requires Escaped(token)
    ensures Escape(Unescape(token)) == token
    decreases |token|
  {
    if token != "" {
      UnescapeStep(token);
      if token[0] == '~' {
        UnescapeThenEscape(token[2..]);
        assert Unescape(token)[1..] == Unescape(token[2..]);
      } else {
        UnescapeThenEscape(token[1..]);
        assert Unescape(token)[1..] == Unescape(token[1..]);
      }
    }
  }

  // ---- splitting ----

  /** str.split("/") */
  function Split(text: string): (r: seq<string>)
    ensures r != []
  {
    if text == "" then [""]
    else
      var rest := Split(text[1..]);
      if text[0] == '/' then [""] + rest else [[text[0]] + rest[0]] + rest[1..]
  }

  function Join(tokens: seq<string>): string
    requires tokens != []
  {
    if |tokens| == 1 then tokens[0] else tokens[0] + "/" + Join(tokens[1..])
  }

  lemma {:induction false} SplitPart(part: string, rest: string)
    requires '/' !in part
    ensures Split(part + "/" + rest) == [part] + Split(rest)
    ensures Split(part) == [part]
  {
    if part == "" {
      assert (part + "/" + rest)[1..] == rest;
    } else {
      assert part[0] in part && [part[0]] + part[1..] == part;
      assert (part + "/" + rest)[1..] == part[1..] + "/" + rest;
      SplitPart(part[1..], rest);
    }
  }

  lemma {:induction false} SplitInvertsJoin(tokens: seq<string>)
    requires tokens != [] && forall i | 0 <= i < |tokens| :: '/' !in tokens[i]
    ensures Split(Join(tokens)) == tokens
  {
    SplitPart(tokens[0], if |tokens| == 1 then "" else Join(tokens[1..]));
    if |tokens| > 1 {
      SplitInvertsJoin(tokens[1..]);
    }
  }

  lemma {:induction false} JoinInvertsSplit(text: string)
    ensures Join(Split(text)) == text && forall i | 0 <= i < |Split(text)| :: '/' !in Split(text)[i]
  {
    if text != "" {
      JoinInvertsSplit(text[1..]);
      var rest := Split(text[1..]);
      if text[0] == '/' {
        assert Split(text)[1..] == rest;
      } else {
        assert Split(text)[1..] == rest[1..];
        if |rest| > 1 {
          assert Join(Split(text)) == [text[0]] + rest[0] + "/" + Join(rest[1..]);
        }
      }
    }
  }

  // ---- array indices ----

  const DIGITS: string := "0123456789"

  predicate IsDigit(c: char) {
    '0' <= c <= '9'
  }

  function Value(c: char): (v: nat)
    requires IsDigit(c)
    ensures v < 10 && DIGITS[v] == c
  {
    c as int - '0' as int
  }

  function Show(n: nat): string {
    (if n < 10 then "" else Show(n / 10)) + [DIGITS[n % 10]]
  }

  /** int(text), for texts of digits. */
  function Parse(text: string): nat
    requires forall i | 0 <= i < |text| :: IsDigit(text[i])
  {
    if text == "" then 0 else 10 * Parse(text[..|text| - 1]) + Value(text[|text| - 1])
  }

  /** The regular expression 0|[1-9][0-9]*. */
  predicate IsIndex(text: string) {
    text != "" && (forall i | 0 <= i < |text| :: IsDigit(text[i])) && (text == "0" || text[0] != '0')
  }

  lemma {:induction false} ShowThenParse(n: nat)
    ensures IsIndex(Show(n)) && Parse(Show(n)) == n && (n > 0 ==> Show(n)[0] != '0')
  {
    var text := Show(n);
    if n >= 10 {
      ShowThenParse(n / 10);
      assert text[..|text| - 1] == Show(n / 10);
      assert text[0] == Show(n / 10)[0];
    } else {
      assert text[..|text| - 1] == "";
    }
  }

  lemma {:induction false} ParseThenShow(text: string)
    requires IsIndex(text)
    ensures Show(Parse(text)) == text && (text != "0" ==> Parse(text) > 0)
  {
    var last, prefix := text[|text| - 1], text[..|text| - 1];
    ParseLast(text);
    hide Show, Parse, Value;
    if prefix == "" {
      ShowDigit(last);
    } else {
      ParseThenShow(prefix);
      ShowMore(Parse(prefix), last);
    }
  }

  /** The last digit of an index, and what comes before it. */
  lemma ParseLast(text: string)
    requires IsIndex(text)
    ensures var last, prefix := text[|text| - 1], text[..|text| - 1];
            && text == prefix + [last] && IsDigit(last)
            && (prefix != "" ==> IsIndex(prefix) && prefix != "0")
            && (forall i | 0 <= i < |prefix| :: IsDigit(prefix[i]))
            && Parse(text) == 10 * Parse(prefix) + Value(last)
            && (prefix == "" ==> Parse(text) == Value(last) && (last != '0' ==> Value(last) > 0))
  {}

  lemma ShowDigit(c: char)
    requires IsDigit(c)
    ensures Show(Value(c)) == [c]
  {}

  lemma ShowMore(n: nat, c: char)
    requires n > 0 && IsDigit(c)
    ensures Show(10 * n + Value(c)) == Show(n) + [c]
  {
    var m := 10 * n + Value(c);
    assert m / 10 == n && m % 10 == Value(c);
  }

  // ---- positions and pointers ----

  function At(root: Json, p: Position): Option<Json>
    decreases |p|
  {
    if p == [] then Some(root)
    else
      match p[0]
      case Key(key) => if root.JObject? && key in root.fields then At(root.fields[key], p[1..]) else None
      case Index(n) => if root.JList? && n < |root.items| then At(root.items[n], p[1..]) else None
  }

  function TextOf(t: Token): string {
    match t
    case Key(key) => key
    case Index(n) => Show(n)
  }

  function Texts(p: Position): (r: seq<string>)
    ensures |r| == |p| && forall i | 0 <= i < |p| :: r[i] == TextOf(p[i])
  {
    seq(|p|, i requires 0 <= i < |p| => TextOf(p[i]))
  }

  function EscapeAll(keys: seq<string>): (r: seq<string>)
    ensures |r| == |keys| && forall i | 0 <= i < |r| :: r[i] == Escape(keys[i])
  {
    seq(|keys|, i requires 0 <= i < |keys| => Escape(keys[i]))
  }

  function UnescapeAll(tokens: seq<string>): (r: seq<string>)
    ensures |r| == |tokens| && forall i | 0 <= i < |r| :: r[i] == Unescape(tokens[i])
  {
    seq(|tokens|, i requires 0 <= i < |tokens| => Unescape(tokens[i]))
  }

  /** The reference to a position, as RFC 6901 writes it behind "#". */
  function Pointer(p: Position): string {
    if p == [] then "#" else "#/" + Join(EscapeAll(Texts(p)))
  }

  /** Following decoded tokens: in an array only decimal indices, in an object only keys it has. */
  function Walk(root: Json, keys: seq<string>): Option<Position>
    decreases |keys|
  {
    if keys == [] then Some([])
    else
      match root
      case Scalar(_) => None
      case JList(items) =>
        if !IsIndex(keys[0]) || Parse(keys[0]) >= |items| then None
        else
          var rest := Walk(items[Parse(keys[0])], keys[1..]);
          if rest.None? then None else Some([Index(Parse(keys[0]))] + rest.value)
      case JObject(fields) =>
        if keys[0] !in fields then None
        else
          var rest := Walk(fields[keys[0]], keys[1..]);
          if rest.None? then None else Some([Key(keys[0])] + rest.value)
  }

  /** Walking along the texts of a position leads to it. */
  lemma {:induction false} WalkReaches(root: Json, p: Position)
    requires At(root, p).Some?
    ensures Walk(root, Texts(p)) == Some(p)
    decreases |p|
  {
    hide Show, Parse, IsIndex, IsDigit;
    if p != [] {
      var keys := Texts(p);
      assert keys[1..] == Texts(p[1..]) && p == [p[0]] + p[1..];
      match p[0]
      case Key(key) =>
        WalkReaches(root.fields[key], p[1..]);
      case Index(n) =>
        ShowThenParse(n);
        assert IsIndex(keys[0]) && Parse(keys[0]) == n;
        WalkReaches(root.items[n], p[1..]);
    }
  }

  /** Where a walk leads to exists, and is spelled by its texts. */
  lemma {:induction false} WalkIsSpelled(root: Json, keys: seq<string>)
    requires Walk(root, keys).Some?
    ensures At(root, Walk(root, keys).value).Some? && Texts(Walk(root, keys).value) == keys
    decreases |keys|
  {
    if keys != [] {
      match root
      case JObject(fields) =>
        WalkIsSpelled(fields[keys[0]], keys[1..]);
      case JList(items) =>
        ParseThenShow(keys[0]);
        WalkIsSpelled(items[Parse(keys[0])], keys[1..]);
    }
  }

  // ---- references ----

  /** _validate_reference: the reference is well formed and leads to one of the given nodes. */
  predicate ValidReference(reference: string, root: Json, identities: set<Position>) {
    if reference == "#" then [] in identities
    else
      && |reference| >= 2 && reference[..2] == "#/"
      && (forall i | 0 <= i < |Split(reference[2..])| :: WellEscaped(Split(reference[2..])[i]))
      && var p := Walk(root, UnescapeAll(Split(reference[2..]))); p.Some? && p.value in identities
  }

  lemma EscapedHaveNoSlash(keys: seq<string>)
    ensures forall i | 0 <= i < |keys| :: Escaped(EscapeAll(keys)[i]) && '/' !in EscapeAll(keys)[i]
    ensures UnescapeAll(EscapeAll(keys)) == keys
  {
    forall i | 0 <= i < |keys|
      ensures Escaped(EscapeAll(keys)[i]) && '/' !in EscapeAll(keys)[i] && Unescape(EscapeAll(keys)[i]) == keys[i]
    {
      EscapeThenUnescape(keys[i]);
      EscapedIff(Escape(keys[i]));
    }
  }

  /** Completeness: the pointer of a node is accepted, and leads back to that node. */
  lemma PointerIsAccepted(root: Json, p: Position, identities: set<Position>)
    requires At(root, p).Some? && p in identities
    ensures ValidReference(Pointer(p), root, identities)
    ensures p != [] ==> Walk(root, UnescapeAll(Split(Pointer(p)[2..]))) == Some(p)
  {
    hide Escape, Unescape, Split, Join, Walk, Escaped, WellEscaped;
    if p != [] {
      var keys := Texts(p);
      var tokens := EscapeAll(keys);
      EscapedHaveNoSlash(keys);
      SplitInvertsJoin(tokens);
      assert Pointer(p)[..2] == "#/" && Pointer(p)[2..] == Join(tokens);
      forall i | 0 <= i < |tokens|
        ensures WellEscaped(tokens[i])
      {
        EscapedIff(tokens[i]);
      }
      WalkReaches(root, p);
    }
  }

  /** Soundness: an accepted reference is the pointer of one of the given nodes. */
  lemma AcceptedIsPointer(reference: string, root: Json, identities: set<Position>)
    requires ValidReference(reference, root, identities)
    ensures exists p :: p in identities && At(root, p).Some? && reference == Pointer(p)
  {
    hide Escape, Unescape, Split, Join, Walk, Escaped, WellEscaped;
    if reference == "#" {
      assert At(root, []).Some? && reference == Pointer([]);
    } else {
      var tokens := Split(reference[2..]);
      var keys := UnescapeAll(tokens);
      var p := Walk(root, keys).value;
      JoinInvertsSplit(reference[2..]);
      WalkIsSpelled(root, keys);
      forall i | 0 <= i < |tokens|
        ensures Escape(keys[i]) == tokens[i]
      {
        EscapedIff(tokens[i]);
        UnescapeThenEscape(tokens[i]);
      }
      assert EscapeAll(keys) == tokens;
      assert p != [];
      assert reference == reference[..2] + reference[2..] == Pointer(p);
    }
  }

  /** Different nodes have different pointers. */
  lemma PointersDiffer(root: Json, p: Position, q: Position)
    requires At(root, p).Some? && At(root, q).Some? && Pointer(p) == Pointer(q)
    ensures p == q
  {
    hide Escape, Unescape, Split, Join, Walk, Escaped, WellEscaped, At;
    PointerIsAccepted(root, p, {p, q});
    PointerIsAccepted(root, q, {p, q});
    assert p != [] ==> |Pointer(p)| >= 2;
    assert q != [] ==> |Pointer(q)| >= 2;
  }

  /** A reference is accepted exactly when it is the pointer of one of the given nodes. */
  lemma AcceptedIff(reference: string, root: Json, identities: set<Position>)
    requires forall p | p in identities :: At(root, p).Some?
    ensures ValidReference(reference, root, identities) <==> exists p :: p in identities && reference == Pointer(p)
  {
    hide ValidReference, Pointer, At;
    if ValidReference(reference, root, identities) {
      AcceptedIsPointer(reference, root, identities);
    }
    if p :| p in identities && reference == Pointer(p) {
      PointerIsAccepted(root, p, identities);
    }
  }

  /** _validate_reference, token by token. */
  method ValidateReference(reference: string, root: Json, identities: set<Position>) returns (ok: bool)
    ensures ok == ValidReference(reference, root, identities)
  {
    hide Unescape, Split, WellEscaped, Parse;
    if reference == "#" {
      return [] in identities;
    }
    if |reference| < 2 || reference[..2] != "#/" {
      return false;
    }
    var tokens := Split(reference[2..]);
    ghost var keys := UnescapeAll(tokens);
    var resolved: Json, at: Position := root, [];
    assert keys[0..] == keys;
    PrependNothing(Walk(root, keys));
    for i := 0 to |tokens|
      invariant forall k | 0 <= k < i :: WellEscaped(tokens[k])
      invariant Walk(root, keys) == Prepend(at, Walk(resolved, keys[i..]))
    {
      if !WellEscaped(tokens[i]) {
        return false;
      }
      var key := Unescape(tokens[i]);
      assert keys[i..][0] == key && keys[i..][1..] == keys[i + 1..];
      if resolved.JList? {
        if !IsIndex(key) || Parse(key) >= |resolved.items| {
          return false;
        }
        PrependOne(at, Index(Parse(key)), Walk(resolved.items[Parse(key)], keys[i + 1..]));
        at, resolved := at + [Index(Parse(key))], resolved.items[Parse(key)];
      } else {
        if !resolved.JObject? || key !in resolved.fields {
          return false;
        }
        PrependOne(at, Key(key), Walk(resolved.fields[key], keys[i + 1..]));
        at, resolved := at + [Key(key)], resolved.fields[key];
      }
    }
    assert keys[|tokens|..] == [];
    assert at + [] == at;
    assert Prepend(at, Some([])) == Some(at);
    ok := at in identities;
  }

  function Prepend(at: Position, rest: Option<Position>): Option<Position> {
    if rest.None? then None else Some(at + rest.value)
  }

  lemma PrependNothing(rest: Option<Position>)
    ensures Prepend([], rest) == rest
  {
    if rest.Some? {
      assert [] + rest.value == rest.value;
    }
  }

  lemma PrependOne(at: Position, t: Token, rest: Option<Position>)
    ensures Prepend(at, if rest.None? then None else Some([t] + rest.value)) == Prepend(at + [t], rest)
  {
    if rest.Some? {
      assert at + ([t] + rest.value) == at + [t] + rest.value;
    }
  }

  // ---- the nodes that a conversion visits ----

  const KEYWORDS: set<string> := {
    "$defs", "$ref", "type", "title", "description", "properties", "required", "additionalProperties", "items",
    "prefixItems", "anyOf", "enum", "const", "default", "format", "minimum", "maximum", "exclusiveMinimum",
    "exclusiveMaximum", "minItems", "maxItems", "minLength", "maxLength", "pattern"
  }

  const NAMED: set<string> := {"properties", "$defs"}

  const SINGLE: set<string> := {"items", "additionalProperties"}

  const LISTED: set<string> := {"anyOf", "prefixItems"}

  /** Whether a position is that of a schema: the root, a property or definition, items or
      additionalProperties given as a schema, a variant or prefix item, and so on below. */
  predicate Visited(value: Json, p: Position)
    decreases value
  {
    || p == []
    || (p[0].Key? && value.JObject? && p[0].key in value.fields &&
        var child := value.fields[p[0].key];
        || (p[0].key in NAMED && |p| >= 2 && p[1].Key? && child.JObject? && p[1].key in child.fields
            && Visited(child.fields[p[1].key], p[2..]))
        || (p[0].key in SINGLE && child.JObject? && Visited(child, p[1..]))
        || (p[0].key in LISTED && |p| >= 2 && p[1].Index? && child.JList? && p[1].n < |child.items|
            && Visited(child.items[p[1].n], p[2..])))
  }

  lemma {:induction false} VisitedExists(value: Json, p: Position)
    requires Visited(value, p)
    ensures At(value, p).Some?
    decreases |p|
  {
    if p != [] {
      var child := value.fields[p[0].key];
      if p[0].key in SINGLE && child.JObject? && Visited(child, p[1..]) {
        VisitedExists(child, p[1..]);
      } else {
        assert p[1..][1..] == p[2..] && p[1..][0] == p[1];
        if child.JObject? {
          VisitedExists(child.fields[p[1].key], p[2..]);
        } else {
          VisitedExists(child.items[p[1].n], p[2..]);
        }
      }
    }
  }

  /** References are accepted exactly when they are pointers of visited schemas: each schema's own
      pointer is, every other text is not. */
  lemma ReferencesToVisited(root: Json, reference: string, identities: set<Position>)
    requires forall p :: p in identities <==> Visited(root, p)
    ensures ValidReference(reference, root, identities) <==> exists p :: Visited(root, p) && reference == Pointer(p)
    ensures forall p | Visited(root, p) :: ValidReference(Pointer(p), root, identities)
  {
    hide Visited, At, Pointer, ValidReference;
    forall p | p in identities
      ensures At(root, p).Some?
    {
      VisitedExists(root, p);
    }
    AcceptedIff(reference, root, identities);
    forall p | Visited(root, p)
      ensures ValidReference(Pointer(p), root, identities)
    {
      PointerIsAccepted(root, p, identities);
    }
    if p :| Visited(root, p) && reference == Pointer(p) {
      assert p in identities;
    }
  }

  /** A visited position of the schema at `at`. */
  predicate VisitedFrom(value: Json, at: Position, p: Position) {
    at <= p && Visited(value, p[|at|..])
  }

  /** The keywords below which a conversion goes on, in its order. */
  const DESCENDS: seq<string> := ["properties", "$defs", "items", "additionalProperties", "anyOf", "prefixItems"]

  /** A visited position below one keyword of the schema at `at`. */
  predicate UnderKeyword(value: Json, key: string, at: Position, p: Position) {
    && value.JObject? && key in value.fields
    && var child := value.fields[key];
       || (key in NAMED && child.JObject? && exists name | name in child.fields ::
             VisitedFrom(child.fields[name], at + [Key(key)] + [Key(name)], p))
       || (key in SINGLE && child.JObject? && VisitedFrom(child, at + [Key(key)], p))
       || (key in LISTED && child.JList? && exists i | 0 <= i < |child.items| ::
             VisitedFrom(child.items[i], at + [Key(key)] + [Index(i)], p))
  }

  lemma UnderIsVisited(value: Json, k: nat, at: Position, p: Position)
    requires k < |DESCENDS| && UnderKeyword(value, DESCENDS[k], at, p)
    ensures VisitedFrom(value, at, p)
  {
    var key := DESCENDS[k];
    var child := value.fields[key];
    var q := p[|at|..];
    if key in NAMED {
      var name :| name in child.fields && VisitedFrom(child.fields[name], at + [Key(key)] + [Key(name)], p);
      assert (at + [Key(key)] + [Key(name)])[|at|] == Key(key)
             && (at + [Key(key)] + [Key(name)])[|at| + 1] == Key(name);
      assert q[0] == Key(key) && q[1] == Key(name) && q[2..] == p[|at| + 2..];
    } else if key in SINGLE {
      assert (at + [Key(key)])[|at|] == Key(key);
      assert q[0] == Key(key) && q[1..] == p[|at| + 1..];
    } else {
      var i :| 0 <= i < |child.items| && VisitedFrom(child.items[i], at + [Key(key)] + [Index(i)], p);
      assert (at + [Key(key)] + [Index(i)])[|at|] == Key(key) && (at + [Key(key)] + [Index(i)])[|at| + 1] == Index(i);
      assert q[0] == Key(key) && q[1] == Index(i) && q[2..] == p[|at| + 2..];
    }
  }

  lemma VisitedIsUnder(value: Json, at: Position, p: Position)
    requires VisitedFrom(value, at, p) && p != at
    ensures exists k :: 0 <= k < |DESCENDS| && UnderKeyword(value, DESCENDS[k], at, p)
  {
    var q := p[|at|..];
    assert p == at + q && q != [];
    var key := q[0].key;
    var child := value.fields[key];
    if key in SINGLE && child.JObject? && Visited(child, q[1..]) {
      assert p[|at| + 1..] == q[1..] && at + [Key(key)] <= p;
      assert VisitedFrom(child, at + [Key(key)], p);
    } else if child.JObject? {
      var name := q[1].key;
      assert p[|at| + 2..] == q[2..] && at + [Key(key)] + [Key(name)] <= p;
      assert VisitedFrom(child.fields[name], at + [Key(key)] + [Key(name)], p);
    } else {
      var i := q[1].n;
      assert p[|at| + 2..] == q[2..] && at + [Key(key)] + [Index(i)] <= p;
      assert VisitedFrom(child.items[i], at + [Key(key)] + [Index(i)], p);
    }
    assert DESCENDS[0] == "properties" && DESCENDS[1] == "$defs" && DESCENDS[2] == "items"
           && DESCENDS[3] == "additionalProperties"
        && DESCENDS[4] == "anyOf" && DESCENDS[5] == "prefixItems";
    assert UnderKeyword(value, key, at, p);
  }

  type Check = map<string, Json> -> bool

  /** A schema of its own, whatever is below it: known keywords with valid values, and schemas where schemas
      are expected. */
  predicate Sound(value: Json, valid: Check) {
    && value.JObject? && value.fields.Keys <= KEYWORDS && valid(value.fields)
    && (forall key | key in NAMED && key in value.fields :: value.fields[key].JObject?)
    && forall key | key in LISTED && key in value.fields :: value.fields[key].JList?
  }

  predicate SoundAt(value: Json, p: Position, valid: Check) {
    At(value, p).Some? && Sound(At(value, p).value, valid)
  }

  /** What a conversion checks of the schema and of all that it goes on to. */
  predicate Converts(value: Json, valid: Check)
    decreases value, 1
  {
    && value.JObject? && value.fields.Keys <= KEYWORDS && valid(value.fields)
    && forall k | 0 <= k < |DESCENDS| :: KeywordConverts(value, DESCENDS[k], valid)
  }

  predicate KeywordConverts(value: Json, key: string, valid: Check)
    requires value.JObject?
    decreases value, 0
  {
    key in value.fields ==>
      var child := value.fields[key];
      && (key in NAMED ==> child.JObject? && forall name | name in child.fields :: Converts(child.fields[name], valid))
      && (key in SINGLE && child.JObject? ==> Converts(child, valid))
      && (key in LISTED ==> child.JList? && forall i | 0 <= i < |child.items| :: Converts(child.items[i], valid))
  }

  /** A conversion succeeds when every visited schema is sound. */
  lemma {:induction false} ConvertsIff(value: Json, valid: Check)
    ensures Converts(value, valid) <==> forall p | Visited(value, p) :: SoundAt(value, p, valid)
    decreases value
  {
    hide Sound;
    if Converts(value, valid) {
      forall p | Visited(value, p)
        ensures SoundAt(value, p, valid)
      {
        SoundBelow(value, p, valid);
      }
    }
    if forall p | Visited(value, p) :: SoundAt(value, p, valid) {
      assert Visited(value, []) && SoundAt(value, [], valid) && At(value, []) == Some(value);
      SoundIsObject(value, valid);
      forall k | 0 <= k < |DESCENDS|
        ensures KeywordConverts(value, DESCENDS[k], valid)
      {
        KeywordIsSound(value, DESCENDS[k], valid);
      }
    }
  }

  lemma SoundIsObject(value: Json, valid: Check)
    requires Sound(value, valid)
    ensures value.JObject? && value.fields.Keys <= KEYWORDS && valid(value.fields)
    ensures forall key | key in NAMED && key in value.fields :: value.fields[key].JObject?
    ensures forall key | key in LISTED && key in value.fields :: value.fields[key].JList?
  {}

  lemma {:induction false} SoundBelow(value: Json, p: Position, valid: Check)
    requires Converts(value, valid) && Visited(value, p)
    ensures SoundAt(value, p, valid)
    decreases value
  {
    hide Sound;
    if p == [] {
      ConvertsIsSound(value, valid);
    } else {
      var key := p[0].key;
      var child := value.fields[key];
      Descended(key);
      var k :| 0 <= k < |DESCENDS| && DESCENDS[k] == key;
      assert KeywordConverts(value, DESCENDS[k], valid);
      if key in SINGLE && child.JObject? && Visited(child, p[1..]) {
        SoundBelow(child, p[1..], valid);
      } else {
        assert p[1..][1..] == p[2..] && p[1..][0] == p[1];
        assert At(value, p) == At(child, p[1..]);
        if child.JObject? {
          SoundBelow(child.fields[p[1].key], p[2..], valid);
          assert At(child, p[1..]) == At(child.fields[p[1].key], p[2..]);
        } else {
          SoundBelow(child.items[p[1].n], p[2..], valid);
          assert At(child, p[1..]) == At(child.items[p[1].n], p[2..]);
        }
      }
    }
  }

  lemma ConvertsIsSound(value: Json, valid: Check)
    requires Converts(value, valid)
    ensures Sound(value, valid)
  {
    forall key | (key in NAMED || key in LISTED) && key in value.fields
      ensures if key in NAMED then value.fields[key].JObject? else value.fields[key].JList?
    {
      Descended(key);
      var k :| 0 <= k < |DESCENDS| && DESCENDS[k] == key;
      assert KeywordConverts(value, DESCENDS[k], valid);
    }
  }

  lemma Descended(key: string)
    requires key in NAMED || key in SINGLE || key in LISTED
    ensures exists k :: 0 <= k < |DESCENDS| && DESCENDS[k] == key
  {
    assert DESCENDS[0] == "properties" && DESCENDS[1] == "$defs" && DESCENDS[2] == "items"
           && DESCENDS[3] == "additionalProperties"
        && DESCENDS[4] == "anyOf" && DESCENDS[5] == "prefixItems";
  }

  lemma {:induction false} KeywordIsSound(value: Json, key: string, valid: Check)
    requires Sound(value, valid) && value.JObject? && key in DESCENDS
    requires forall p | Visited(value, p) :: SoundAt(value, p, valid)
    ensures KeywordConverts(value, key, valid)
    decreases value, 0
  {
    hide Sound;
    SoundIsObject(value, valid);
    if key in value.fields {
      var child := value.fields[key];
      if key in NAMED {
        forall name | name in child.fields
          ensures Converts(child.fields[name], valid)
        {
          PartIsSound(value, [Key(key), Key(name)], child.fields[name], valid);
          ConvertsIff(child.fields[name], valid);
        }
      } else if key in SINGLE {
        if child.JObject? {
          PartIsSound(value, [Key(key)], child, valid);
          ConvertsIff(child, valid);
        }
      } else {
        forall i | 0 <= i < |child.items|
          ensures Converts(child.items[i], valid)
        {
          PartIsSound(value, [Key(key), Index(i)], child.items[i], valid);
          ConvertsIff(child.items[i], valid);
        }
      }
    }
  }

  /** What is visited below a part is visited. */
  lemma PartIsSound(value: Json, step: Position, part: Json, valid: Check)
    requires forall p | Visited(value, p) :: SoundAt(value, p, valid)
    requires forall q | Visited(part, q) :: Visited(value, step + q) && At(value, step + q) == At(part, q)
    ensures forall q | Visited(part, q) :: SoundAt(part, q, valid)
  {
    hide Sound, Visited, At, SoundAt;
    forall q | Visited(part, q)
      ensures SoundAt(part, q, valid)
    {
      assert SoundAt(value, step + q, valid);
      SoundAlike(value, step + q, part, q, valid);
    }
  }

  lemma SoundAlike(a: Json, p: Position, b: Json, q: Position, valid: Check)
    requires SoundAt(a, p, valid) && At(a, p) == At(b, q)
    ensures SoundAt(b, q, valid)
  {}

  /** google_schema: `nodes` collects the schemas that its conversion visits. */
  class Converter {
    var nodes: seq<Position>

    constructor ()
      ensures nodes == []
    {
      nodes := [];
    }

    /** convert, as far as it visits; false when it raises. `valid` is the check of the values. */
    method Convert(value: Json, at: Position, valid: Check) returns (ok: bool)
      modifies this
      ensures ok <==> Converts(value, valid)
      ensures ok ==> forall p :: p in nodes <==> p in old(nodes) || VisitedFrom(value, at, p)
      decreases value, 1
    {
      hide Visited, VisitedFrom, UnderKeyword;
      if !value.JObject? || !(value.fields.Keys <= KEYWORDS) {
        return false;
      }
      nodes := nodes + [at];
      if !valid(value.fields) {
        return false;
      }
      for k := 0 to |DESCENDS|
        invariant forall j | 0 <= j < k :: KeywordConverts(value, DESCENDS[j], valid)
        invariant forall p :: p in nodes <==> p in old(nodes) || p == at || exists j ::
                    0 <= j < k && UnderKeyword(value, DESCENDS[j], at, p)
      {
        ok := ConvertKeyword(value, DESCENDS[k], at, valid);
        if !ok {
          return;
        }
      }
      ok := true;
      forall p
        ensures VisitedFrom(value, at, p) <==> p == at || exists j ::
                  0 <= j < |DESCENDS| && UnderKeyword(value, DESCENDS[j], at, p)
      {
        if p == at {
          VisitsItself(value, at);
        } else if VisitedFrom(value, at, p) {
          VisitedIsUnder(value, at, p);
        }
        if j :| 0 <= j < |DESCENDS| && UnderKeyword(value, DESCENDS[j], at, p) {
          UnderIsVisited(value, j, at, p);
        }
      }
    }

    method ConvertKeyword(value: Json, key: string, at: Position, valid: Check) returns (ok: bool)
      requires value.JObject? && key in DESCENDS
      modifies this
      ensures ok <==> KeywordConverts(value, key, valid)
      ensures ok ==> forall p :: p in nodes <==> p in old(nodes) || UnderKeyword(value, key, at, p)
      decreases value, 0
    {
      hide Visited, VisitedFrom;
      if key !in value.fields {
        return true;
      }
      var child := value.fields[key];
      if key in NAMED {
        if !child.JObject? {
          return false;
        }
        ok := ConvertFields(child, at + [Key(key)], valid);
      } else if key in SINGLE {
        if !child.JObject? {
          return true;
        }
        ok := Convert(child, at + [Key(key)], valid);
      } else {
        if !child.JList? {
          return false;
        }
        ok := ConvertItems(child, at + [Key(key)], valid);
      }
    }

    method ConvertFields(child: Json, at: Position, valid: Check) returns (ok: bool)
      requires child.JObject?
      modifies this
      ensures ok <==> forall name | name in child.fields :: Converts(child.fields[name], valid)
      ensures ok ==> forall p :: p in nodes <==> p in old(nodes) || exists name | name in child.fields ::
                VisitedFrom(child.fields[name], at + [Key(name)], p)
      decreases child, 0
    {
      hide Visited, VisitedFrom;
      var rest := child.fields.Keys;
      while rest != {}
        invariant rest <= child.fields.Keys
        invariant forall name | name in child.fields && name !in rest :: Converts(child.fields[name], valid)
        invariant forall p :: p in nodes <==>
                    p in old(nodes) || exists name | name in child.fields && name !in rest ::
                        VisitedFrom(child.fields[name], at + [Key(name)], p)
        decreases |rest|
      {
        var name :| name in rest;
        ok := Convert(child.fields[name], at + [Key(name)], valid);
        if !ok {
          return;
        }
        rest := rest - {name};
      }
      ok := true;
    }

    method ConvertItems(child: Json, at: Position, valid: Check) returns (ok: bool)
      requires child.JList?
      modifies this
      ensures ok <==> forall i | 0 <= i < |child.items| :: Converts(child.items[i], valid)
      ensures ok ==> forall p :: p in nodes <==> p in old(nodes) || exists i | 0 <= i < |child.items| ::
                VisitedFrom(child.items[i], at + [Index(i)], p)
      decreases child, 0
    {
      hide Visited, VisitedFrom;
      for i := 0 to |child.items|
        invariant forall j | 0 <= j < i :: Converts(child.items[j], valid)
        invariant forall p :: p in nodes <==> p in old(nodes) || exists j | 0 <= j < i ::
                    VisitedFrom(child.items[j], at + [Index(j)], p)
      {
        ok := Convert(child.items[i], at + [Index(i)], valid);
        if !ok {
          return;
        }
      }
      ok := true;
    }

    /** The whole of google_schema's checks: every reference that a visited schema makes is the
        pointer of a visited schema, and only such references pass. */
    method CheckSchema(root: Json, valid: Check) returns (converted: bool, ok: bool)
      requires nodes == []
      modifies this
      ensures converted <==> forall p | Visited(root, p) :: SoundAt(root, p, valid)
      ensures converted ==> forall p :: p in nodes <==> Visited(root, p)
      ensures ok ==> converted
      ensures converted ==>
                (ok <==> forall p | Visited(root, p) :: Refers(root, p) ==> exists q ::
                   Visited(root, q) && Reference(root, p) == Pointer(q))
    {
      hide Visited, Refers, Reference, ValidReference, Pointer, Converts, At, SoundAt;
      ConvertsIff(root, valid);
      converted := Convert(root, [], valid);
      if !converted {
        return false, false;
      }
      forall p
        ensures VisitedFrom(root, [], p) <==> Visited(root, p)
      {
        assert p[0..] == p;
      }
      var visited := nodes;
      var identities := set i | 0 <= i < |visited| :: visited[i];
      for i := 0 to |visited|
        invariant nodes == visited
        invariant forall p :: p in identities <==> Visited(root, p)
        invariant forall k | 0 <= k < i :: Refers(root, visited[k]) ==> exists q ::
                    Visited(root, q) && Reference(root, visited[k]) == Pointer(q)
      {
        if Refers(root, visited[i]) {
          ReferencesToVisited(root, Reference(root, visited[i]), identities);
          var valid := ValidateReference(Reference(root, visited[i]), root, identities);
          if !valid {
            assert Visited(root, visited[i]);
            return true, false;
          }
        }
      }
      ok := true;
      forall p | Visited(root, p) && Refers(root, p)
        ensures exists q :: Visited(root, q) && Reference(root, p) == Pointer(q)
      {
        var k :| 0 <= k < |visited| && visited[k] == p;
      }
    }
  }

  /** The schema at p has a textual $ref. */
  predicate Refers(root: Json, p: Position) {
    && At(root, p).Some? && At(root, p).value.JObject? && "$ref" in At(root, p).value.fields
    && At(root, p).value.fields["$ref"].Scalar?
  }

  function Reference(root: Json, p: Position): string {
    if Refers(root, p) then At(root, p).value.fields["$ref"].text else ""
  }

  lemma VisitsItself(value: Json, at: Position)
    ensures VisitedFrom(value, at, at)
  {}
}
