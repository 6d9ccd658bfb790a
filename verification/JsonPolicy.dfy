/** Recursive inspection of JSON trees: the request validators, the prompt collector and
    the authentication-status walk. Go iterates over a map in no fixed order, so every
    loop over an object's fields takes them in an arbitrary order. */
module JsonPolicy {
  import opened Wrappers
  import opened Text
  import Paths

  datatype Json =
    | Null | Bool(b: bool) | Num(n: real) | Str(s: string)
    | Arr(items: seq<Json>) | Obj(fields: map<string, Json>)

  // ---------------------------------------------------------------- nodes at any depth

  datatype Hop = Field(key: string) | Item(index: nat)

  function At(j: Json, path: seq<Hop>): Option<Json> {
    if path == [] then Some(j)
    else
      match (j, path[0])
      case (Obj(m), Field(k)) => if k in m then At(m[k], path[1..]) else None
      case (Arr(xs), Item(i)) => if i < |xs| then At(xs[i], path[1..]) else None
      case _ => None
  }

  /** Some node at some depth satisfies the predicate. */
  ghost predicate Somewhere(j: Json, p: Json -> bool) {
    exists path: seq<Hop> :: At(j, path).Some? && p(At(j, path).value)
  }

  /** The same, followed down the tree. */
  ghost predicate Holds(j: Json, p: Json -> bool) {
    || p(j)
    || match j
       case Obj(m) => exists k :: k in m && Holds(m[k], p)
       case Arr(xs) => exists i :: 0 <= i < |xs| && Holds(xs[i], p)
       case _ => false
  }

  lemma {:induction false} HoldsHasPath(j: Json, p: Json -> bool) returns (path: seq<Hop>)
    requires Holds(j, p)
    ensures At(j, path).Some? && p(At(j, path).value)
  {
    if p(j) {
      path := [];
    } else {
      match j {
        case Obj(m) =>
          var k :| k in m && Holds(m[k], p);
          var rest := HoldsHasPath(m[k], p);
          path := [Field(k)] + rest;
          assert path[1..] == rest;
        case Arr(xs) =>
          var i :| 0 <= i < |xs| && Holds(xs[i], p);
          var rest := HoldsHasPath(xs[i], p);
          path := [Item(i)] + rest;
          assert path[1..] == rest;
      }
    }
  }

  lemma {:induction false} PathHolds(j: Json, p: Json -> bool, path: seq<Hop>)
    requires At(j, path).Some? && Holds(At(j, path).value, p)
    ensures Holds(j, p)
    decreases |path|
  {
    if path != [] {
      match (j, path[0]) {
        case (Obj(m), Field(k)) => PathHolds(m[k], p, path[1..]);
        case (Arr(xs), Item(i)) => PathHolds(xs[i], p, path[1..]);
      }
    }
  }

  /** Walking the tree finds exactly the nodes that some path leads to. */
  lemma HoldsExactly(j: Json, p: Json -> bool)
    ensures Holds(j, p) <==> Somewhere(j, p)
  {
    if Holds(j, p) { var path := HoldsHasPath(j, p); }
    if Somewhere(j, p) {
      var path: seq<Hop> :| At(j, path).Some? && p(At(j, path).value);
      PathHolds(j, p, path);
    }
  }

  // ---------------------------------------------------------------- tool shapes

  const TOOL_KEYS: set<string> := {
    "tools", "functions", "tool_choice", "tool_calls", "function_call", "tool_use", "tool_result",
    "server_tool_use", "parallel_tool_calls"}

  predicate ToolName(folded: string) { folded in TOOL_KEYS || "mcp_tool_" <= folded }

  function StringAt(m: map<string, Json>, key: string): string {
    if key in m && m[key].Str? then m[key].s else ""
  }

  predicate ToolType(m: map<string, Json>) {
    StringAt(m, "type") != "" && ToolName(Lower(TrimSpace(StringAt(m, "type"))))
  }

  predicate ToolNode(j: Json) {
    j.Obj? && (ToolType(j.fields) || exists k :: k in j.fields && ToolName(Lower(k)))
  }

  /** findUnsupportedToolShape. Which key is reported depends on the order; whether one is
      does not. */
  method FindUnsupportedToolShape(v: Json) returns (key: string, found: bool)
    ensures found <==> Holds(v, ToolNode)
    decreases v
  {
    match v
    case Obj(m) =>
      if ToolType(m) { return "type:" + StringAt(m, "type"), true; }
      var rest := m.Keys;
      while rest != {}
        invariant rest <= m.Keys
        invariant forall k :: k in m && k !in rest ==> !ToolName(Lower(k)) && !Holds(m[k], ToolNode)
      {
        var k :| k in rest;
        if ToolName(Lower(k)) { return k, true; }
        key, found := FindUnsupportedToolShape(m[k]);
        if found { return; }
        rest := rest - {k};
      }
      return "", false;
    case Arr(xs) =>
      for i := 0 to |xs|
        invariant forall k :: 0 <= k < i ==> !Holds(xs[k], ToolNode)
      {
        key, found := FindUnsupportedToolShape(xs[i]);
        if found { return; }
      }
      return "", false;
    case _ => return "", false;
  }

  // ---------------------------------------------------------------- unsupported content

  const ATTACHMENT_KEYS: set<string> := {
    "attachments", "attachment", "image_url", "input_image", "input_file", "file", "file_data", "audio", "input_audio"}
  const BENIGN_TYPES: set<string> := {
    "text", "input_text", "output_text", "message", "system", "user", "assistant", "developer"}
  const MEDIA_WORDS: set<string> := {"image", "file", "audio", "attachment", "document", "media"}

  function FoldedType(m: map<string, Json>): string { Lower(TrimSpace(StringAt(m, "type"))) }

  predicate BenignType(m: map<string, Json>) { StringAt(m, "type") != "" && FoldedType(m) in BENIGN_TYPES }

  predicate MediaType(m: map<string, Json>) {
    StringAt(m, "type") != "" && exists w :: w in MEDIA_WORDS && Paths.Contains(FoldedType(m), w)
  }

  predicate ForeignMime(m: map<string, Json>, key: string) {
    StringAt(m, key) != "" && !("text/" <= Lower(TrimSpace(StringAt(m, key))))
  }

  /** unsupportedContentMap: a benign type ends the inspection before the MIME fields are
      looked at. */
  function UnsupportedContentMap(m: map<string, Json>): (bad: bool) {
    if exists k :: k in ATTACHMENT_KEYS && k in m then true
    else if BenignType(m) then false
    else if MediaType(m) then true
    else ForeignMime(m, "mime_type") || ForeignMime(m, "media_type")
  }

  predicate ContentNode(j: Json) { j.Obj? && UnsupportedContentMap(j.fields) }

  method FindUnsupportedContent(v: Json) returns (found: bool)
    ensures found <==> Holds(v, ContentNode)
    decreases v
  {
    match v
    case Obj(m) =>
      if UnsupportedContentMap(m) { return true; }
      var rest := m.Keys;
      while rest != {}
        invariant rest <= m.Keys
        invariant forall k :: k in m && k !in rest ==> !Holds(m[k], ContentNode)
      {
        var k :| k in rest;
        found := FindUnsupportedContent(m[k]);
        if found { return; }
        rest := rest - {k};
      }
      return false;
    case Arr(xs) =>
      for i := 0 to |xs|
        invariant forall k :: 0 <= k < i ==> !Holds(xs[k], ContentNode)
      {
        found := FindUnsupportedContent(xs[i]);
        if found { return; }
      }
      return false;
    case _ => return false;
  }

  /** A map that declares a MIME type other than text passes exactly when its own type is
      one of the benign ones and it has no attachment field. */
  lemma ForeignMimeExactly(m: map<string, Json>)
    requires ForeignMime(m, "mime_type") || ForeignMime(m, "media_type")
    ensures !UnsupportedContentMap(m) <==> BenignType(m) && forall k :: k in ATTACHMENT_KEYS ==> k !in m
  {}

  // ---------------------------------------------------------------- the verdict

  /** A word that stands for tools, whatever its case. */
  predicate ToolWord(word: string) {
    var w := Lower(word);
    || w == "tools" || w == "functions" || w == "tool_choice" || w == "tool_calls" || w == "function_call"
    || w == "tool_use" || w == "tool_result" || w == "server_tool_use" || w == "parallel_tool_calls"
    || (|w| >= 9 && w[..9] == "mcp_tool_")
  }

  /** Some object at some depth has a key that is such a word, or a type that is. */
  ghost predicate ToolSomewhere(v: Json) {
    exists path: seq<Hop>, key: string :: ToolAt(At(v, path), key)
  }

  ghost predicate ToolAt(node: Option<Json>, key: string) {
    && node.Some? && node.value.Obj? && key in node.value.fields
    && (ToolWord(key) ||
        (key == "type" && node.value.fields[key].Str? && ToolWord(TrimSpace(node.value.fields[key].s))))
  }

  lemma ToolWordExactly(word: string)
    ensures ToolWord(word) <==> ToolName(Lower(word))
  {
    assert "mcp_tool_" <= Lower(word) <==> |Lower(word)| >= 9 && Lower(word)[..9] == "mcp_tool_";
  }

  lemma BlankIsNoTool(s: string)
    requires s == ""
    ensures !ToolWord(TrimSpace(s))
  {}

  lemma ToolSomewhereExactly(v: Json)
    ensures ToolSomewhere(v) <==> Somewhere(v, ToolNode)
  {
    if ToolSomewhere(v) {
      var path: seq<Hop>, key: string :| ToolAt(At(v, path), key);
      var m := At(v, path).value.fields;
      ToolWordExactly(key);
      if !ToolWord(key) {
        ToolWordExactly(TrimSpace(m[key].s));
        if m[key].s == "" { BlankIsNoTool(m[key].s); }
      }
      assert ToolNode(At(v, path).value);
    }
    if Somewhere(v, ToolNode) {
      var path: seq<Hop> :| At(v, path).Some? && ToolNode(At(v, path).value);
      var m := At(v, path).value.fields;
      if ToolType(m) {
        ToolWordExactly(TrimSpace(m["type"].s));
        assert ToolAt(At(v, path), "type");
      } else {
        var key :| key in m && ToolName(Lower(key));
        ToolWordExactly(key);
        assert ToolAt(At(v, path), key);
      }
    }
  }

  /** A text that names a medium or a document. */
  predicate MediaWord(w: string) {
    || Paths.Contains(w, "image") || Paths.Contains(w, "file") || Paths.Contains(w, "audio")
    || Paths.Contains(w, "attachment") || Paths.Contains(w, "document") || Paths.Contains(w, "media")
  }

  predicate TextWord(w: string) {
    || w == "text" || w == "input_text" || w == "output_text" || w == "message"
    || w == "system" || w == "user" || w == "assistant" || w == "developer"
  }

  /** The object holds something other than text: an attachment field; or, unless its type is
      one of plain text, a type that names a medium or a MIME type that is not text. */
  predicate HoldsMedia(m: map<string, Json>) {
    var w := Lower(TrimSpace(StringAt(m, "type")));
    || "attachments" in m || "attachment" in m || "image_url" in m || "input_image" in m || "input_file" in m
    || "file" in m || "file_data" in m || "audio" in m || "input_audio" in m
    || (!TextWord(w) && (MediaWord(w) || SaysNotText(m, "mime_type") || SaysNotText(m, "media_type")))
  }

  /** The field is a text, not empty, that does not begin with "text/" whatever its case and the
      white space around it. */
  predicate SaysNotText(m: map<string, Json>, key: string) {
    && key in m && m[key].Str? && m[key].s != ""
    && var w := Lower(TrimSpace(m[key].s)); !(|w| >= 5 && w[..5] == "text/")
  }

  lemma SaysNotTextExactly(m: map<string, Json>, key: string)
    ensures SaysNotText(m, key) <==> ForeignMime(m, key)
  {
    var w := Lower(TrimSpace(StringAt(m, key)));
    assert "text/" <= w <==> |w| >= 5 && w[..5] == "text/";
  }

  ghost predicate MediaSomewhere(v: Json) {
    exists path: seq<Hop> :: At(v, path).Some? && At(v, path).value.Obj? && HoldsMedia(At(v, path).value.fields)
  }

  lemma NoTypeSaysNothing(s: string)
    requires s == ""
    ensures !TextWord(Lower(TrimSpace(s))) && !MediaWord(Lower(TrimSpace(s)))
  {
    assert Lower(TrimSpace(s)) == "";
  }

  lemma MediaTypeExactly(m: map<string, Json>)
    ensures MediaType(m) <==> MediaWord(Lower(TrimSpace(StringAt(m, "type"))))
    ensures BenignType(m) <==> TextWord(Lower(TrimSpace(StringAt(m, "type"))))
  {
    if StringAt(m, "type") == "" { NoTypeSaysNothing(StringAt(m, "type")); }
    var w := FoldedType(m);
    assert (exists x :: x in MEDIA_WORDS && Paths.Contains(w, x)) <==> MediaWord(w) by {
      if MediaWord(w) {
        assert "image" in MEDIA_WORDS && "file" in MEDIA_WORDS && "audio" in MEDIA_WORDS;
        assert "attachment" in MEDIA_WORDS && "document" in MEDIA_WORDS && "media" in MEDIA_WORDS;
      }
    }
  }

  lemma HoldsMediaExactly(m: map<string, Json>)
    ensures HoldsMedia(m) <==> UnsupportedContentMap(m)
  {
    MediaTypeExactly(m);
    AttachmentExactly(m);
    SaysNotTextExactly(m, "mime_type");
    SaysNotTextExactly(m, "media_type");
  }

  lemma AttachmentExactly(m: map<string, Json>)
    ensures (exists k :: k in ATTACHMENT_KEYS && k in m) <==>
            || "attachments" in m || "attachment" in m || "image_url" in m || "input_image" in m || "input_file" in m
            || "file" in m || "file_data" in m || "audio" in m || "input_audio" in m
  {
    assert "attachments" in ATTACHMENT_KEYS && "attachment" in ATTACHMENT_KEYS && "image_url" in ATTACHMENT_KEYS;
    assert "input_image" in ATTACHMENT_KEYS && "input_file" in ATTACHMENT_KEYS && "file" in ATTACHMENT_KEYS;
    assert "file_data" in ATTACHMENT_KEYS && "audio" in ATTACHMENT_KEYS && "input_audio" in ATTACHMENT_KEYS;
  }

  lemma MediaSomewhereExactly(v: Json)
    ensures MediaSomewhere(v) <==> Somewhere(v, ContentNode)
  {
    if MediaSomewhere(v) {
      var path: seq<Hop> :|
        At(v, path).Some? && At(v, path).value.Obj? && HoldsMedia(At(v, path).value.fields);
      HoldsMediaExactly(At(v, path).value.fields);
      assert ContentNode(At(v, path).value);
    }
    if Somewhere(v, ContentNode) {
      var path: seq<Hop> :| At(v, path).Some? && ContentNode(At(v, path).value);
      HoldsMediaExactly(At(v, path).value.fields);
    }
  }

  datatype Verdict = Accepted | InvalidRequest | UnsupportedTools | UnsupportedContent

  /** validateRequestPayload, on the decoded body if there was one: the verdict, error code
      included, is a function of the tree. */
  method ValidateRequestPayload(body: Option<Json>) returns (r: Verdict)
    ensures r == InvalidRequest <==> body.None?
    ensures body.Some? ==>
            && (r == Accepted <==> !ToolSomewhere(body.value) && !MediaSomewhere(body.value))
            && (r == UnsupportedTools <==> ToolSomewhere(body.value))
            && (r == UnsupportedContent <==> !ToolSomewhere(body.value) && MediaSomewhere(body.value))
  {
    if body.None? { return InvalidRequest; }
    HoldsExactly(body.value, ToolNode);
    HoldsExactly(body.value, ContentNode);
    ToolSomewhereExactly(body.value);
    MediaSomewhereExactly(body.value);
    var key, tool := FindUnsupportedToolShape(body.value);
    if tool { return UnsupportedTools; }
    var content := FindUnsupportedContent(body.value);
    if content { return UnsupportedContent; }
    return Accepted;
  }

  // ---------------------------------------------------------------- collecting the prompt

  const PROMPT_KEYS: seq<string> := ["instructions", "system", "input", "content", "text", "messages"]

  function RoleOf(m: map<string, Json>, role: string): string {
    if StringAt(m, "role") != "" then StringAt(m, "role") else role
  }

  function Said(text: string, role: string): string {
    var t := TrimSpace(text);
    if t == "" then "" else if role != "" then "\n" + role + ": " + t + "\n" else "\n" + t + "\n"
  }

  /** What collectPrompt writes for a value. */
  function Prompt(j: Json, role: string): string
    decreases j, 0
  {
    match j
    case Obj(m) => PromptKeys(j, m, PROMPT_KEYS, RoleOf(m, role))
    case Arr(xs) => PromptItems(xs, role)
    case Str(s) => Said(s, role)
    case _ => ""
  }

  function PromptKeys(j: Json, m: map<string, Json>, keys: seq<string>, role: string): string
    requires j == Obj(m)
    decreases j, 0, |keys|
  {
    if keys == [] then ""
    else (if keys[0] in m then Prompt(m[keys[0]], role) else "") + PromptKeys(j, m, keys[1..], role)
  }

  function PromptItems(xs: seq<Json>, role: string): string
    decreases xs, 0
  {
    if xs == [] then "" else Prompt(xs[0], role) + PromptItems(xs[1..], role)
  }

  /** The nodes collectPrompt goes through. */
  ghost predicate Visits(j: Json, n: Json) {
    || n == j
    || match j
       case Obj(m) => exists k :: k in PROMPT_KEYS && k in m && Visits(m[k], n)
       case Arr(xs) => exists i :: 0 <= i < |xs| && Visits(xs[i], n)
       case _ => false
  }

  /** Every node the prompt is collected from, in an accepted tree, is clean all the way
      down. */
  lemma {:induction false} VisitedIsClean(j: Json, n: Json, bad: Json -> bool)
    requires Visits(j, n) && !Somewhere(j, bad)
    ensures !Somewhere(n, bad)
    decreases j
  {
    HoldsExactly(j, bad);
    HoldsExactly(n, bad);
    if n != j {
      match j {
        case Obj(m) =>
          var k :| k in PROMPT_KEYS && k in m && Visits(m[k], n);
          HoldsExactly(m[k], bad);
          VisitedIsClean(m[k], n, bad);
        case Arr(xs) =>
          var i :| 0 <= i < |xs| && Visits(xs[i], n);
          HoldsExactly(xs[i], bad);
          VisitedIsClean(xs[i], n, bad);
      }
    }
  }

  /** A text is written on lines of its own, under its role if there is one; a blank one is not
      written. */
  lemma PromptOfText(text: string, role: string)
    ensures TrimSpace(text) == "" ==> Prompt(Str(text), role) == ""
    ensures TrimSpace(text) != "" ==>
              Prompt(Str(text), role) == "\n" + (if role == "" then "" else role + ": ") + TrimSpace(text) + "\n"
  {
    var t := TrimSpace(text);
    assert "\n" + "" + t + "\n" == "\n" + t + "\n";
    assert "\n" + (role + ": ") + t + "\n" == "\n" + role + ": " + t + "\n";
  }

  /** What a field adds, under the object's own role if it names one. */
  function FieldPrompt(m: map<string, Json>, key: string, role: string): string {
    if key in m then Prompt(m[key], if "role" in m && m["role"].Str? && m["role"].s != "" then m["role"].s else role)
    else ""
  }

  /** An object writes six of its fields, in this order, and nothing else. */
  lemma PromptOfObject(m: map<string, Json>, role: string)
    ensures Prompt(Obj(m), role) ==
            FieldPrompt(m, "instructions", role) + FieldPrompt(m, "system", role) + FieldPrompt(m, "input", role)
            + FieldPrompt(m, "content", role) + FieldPrompt(m, "text", role) + FieldPrompt(m, "messages", role)
  {
    assert PROMPT_KEYS == ["instructions", "system", "input"] + ["content", "text", "messages"];
    SixKeys(m, "instructions", "system", "input", "content", "text", "messages", role);
  }

  lemma {:induction false} ThreeKeys(m: map<string, Json>, a: string, b: string, c: string,
                                     keys: seq<string>, role: string)
    ensures PromptKeys(Obj(m), m, [a, b, c] + keys, RoleOf(m, role)) ==
            FieldPrompt(m, a, role) + FieldPrompt(m, b, role) + FieldPrompt(m, c, role)
            + PromptKeys(Obj(m), m, keys, RoleOf(m, role))
  {
    KeysFrom(m, a, [b, c] + keys, role);
    KeysFrom(m, b, [c] + keys, role);
    KeysFrom(m, c, keys, role);
    assert [a] + ([b, c] + keys) == [a, b, c] + keys && [b] + ([c] + keys) == [b, c] + keys;
    Regrouped(FieldPrompt(m, a, role), FieldPrompt(m, b, role), FieldPrompt(m, c, role),
              PromptKeys(Obj(m), m, keys, RoleOf(m, role)));
  }

  lemma Regrouped(a: string, b: string, c: string, d: string)
    ensures a + (b + (c + d)) == a + b + c + d
  {}

  lemma {:induction false} SixKeys(m: map<string, Json>, a: string, b: string, c: string,
                                   d: string, e: string, g: string, role: string)
    ensures PromptKeys(Obj(m), m, [a, b, c] + [d, e, g], RoleOf(m, role)) ==
            FieldPrompt(m, a, role) + FieldPrompt(m, b, role) + FieldPrompt(m, c, role)
            + FieldPrompt(m, d, role) + FieldPrompt(m, e, role) + FieldPrompt(m, g, role)
  {
    ThreeKeys(m, a, b, c, [d, e, g], role);
    ThreeKeys(m, d, e, g, [], role);
    assert [d, e, g] + [] == [d, e, g];
    SixRegrouped(FieldPrompt(m, a, role) + FieldPrompt(m, b, role) + FieldPrompt(m, c, role),
                 FieldPrompt(m, d, role), FieldPrompt(m, e, role), FieldPrompt(m, g, role));
  }

  lemma SixRegrouped(abc: string, d: string, e: string, g: string)
    ensures abc + (d + e + g + "") == abc + d + e + g
  {}

  lemma {:induction false} KeysFrom(m: map<string, Json>, key: string, keys: seq<string>, role: string)
    ensures var own := RoleOf(m, role);
            PromptKeys(Obj(m), m, [key] + keys, own) == FieldPrompt(m, key, role) + PromptKeys(Obj(m), m, keys, own)
  {
    assert ([key] + keys)[1..] == keys;
  }

  /** Lists are written item by item. */
  lemma {:induction false} PromptOfList(xs: seq<Json>, ys: seq<Json>, role: string)
    ensures Prompt(Arr(xs + ys), role) == Prompt(Arr(xs), role) + Prompt(Arr(ys), role)
    decreases |xs|
  {
    if xs == [] {
      assert xs + ys == ys;
    } else {
      PromptOfList(xs[1..], ys, role);
      assert (xs + ys)[1..] == xs[1..] + ys;
    }
  }

  lemma ContainsEither(a: string, b: string, t: string)
    requires Paths.Contains(a, t) || Paths.Contains(b, t)
    ensures Paths.Contains(a + b, t)
  {
    if Paths.Contains(a, t) {
      var i :| 0 <= i <= |a| && t <= a[i..];
      assert (a + b)[i..] == a[i..] + b;
    } else {
      var i :| 0 <= i <= |b| && t <= b[i..];
      assert (a + b)[|a| + i..] == b[i..];
    }
  }

  lemma SaidHolds(text: string, role: string)
    ensures Paths.Contains(Said(text, role), TrimSpace(text))
  {
    var t := TrimSpace(text);
    if t != "" {
      var before := if role != "" then "\n" + role + ": " else "\n";
      assert Said(text, role)[|before|..] == t + "\n";
    } else {
      assert t <= Said(text, role)[0..];
    }
  }

  lemma {:induction false} KeyHolds(m: map<string, Json>, keys: seq<string>, k: string, role: string, t: string)
    requires k in keys && k in m && Paths.Contains(Prompt(m[k], role), t)
    ensures Paths.Contains(PromptKeys(Obj(m), m, keys, role), t)
    decreases |keys|
  {
    if keys[0] != k { KeyHolds(m, keys[1..], k, role, t); }
    ContainsEither(if keys[0] in m then Prompt(m[keys[0]], role) else "", PromptKeys(Obj(m), m, keys[1..], role), t);
  }

  lemma {:induction false} ItemHolds(xs: seq<Json>, i: nat, role: string, t: string)
    requires i < |xs| && Paths.Contains(Prompt(xs[i], role), t)
    ensures Paths.Contains(PromptItems(xs, role), t)
    decreases |xs|
  {
    if i > 0 { ItemHolds(xs[1..], i - 1, role, t); }
    ContainsEither(Prompt(xs[0], role), PromptItems(xs[1..], role), t);
  }

  /** No text the collector meets is lost: every visited string is in the prompt, trimmed,
      at whatever depth it stands. */
  lemma {:induction false} VisitedTextIsKept(j: Json, text: string, role: string)
    requires Visits(j, Str(text))
    ensures Paths.Contains(Prompt(j, role), TrimSpace(text))
    decreases j
  {
    match j {
      case Str(s) => SaidHolds(s, role);
      case Obj(m) =>
        var k :| k in PROMPT_KEYS && k in m && Visits(m[k], Str(text));
        VisitedTextIsKept(m[k], text, RoleOf(m, role));
        KeyHolds(m, PROMPT_KEYS, k, RoleOf(m, role), TrimSpace(text));
      case Arr(xs) =>
        var i :| 0 <= i < |xs| && Visits(xs[i], Str(text));
        VisitedTextIsKept(xs[i], text, role);
        ItemHolds(xs, i, role, TrimSpace(text));
      case _ =>
    }
  }

  /** And the prompt depends on those nodes alone: a tree whose visited fields agree gives
      the same prompt. */
  lemma UnvisitedFieldsDoNotMatter(m: map<string, Json>, m': map<string, Json>, role: string)
    requires RoleOf(m, role) == RoleOf(m', role)
    requires forall k :: k in PROMPT_KEYS ==> (k in m <==> k in m') && (k in m ==> m[k] == m'[k])
    ensures Prompt(Obj(m), role) == Prompt(Obj(m'), role)
  {
    SameKeysSamePrompt(m, m', PROMPT_KEYS, RoleOf(m, role));
  }

  lemma {:induction false} SameKeysSamePrompt(m: map<string, Json>, m': map<string, Json>, keys: seq<string>,
      role: string)
    requires forall k :: k in keys ==> (k in m <==> k in m') && (k in m ==> m[k] == m'[k])
    ensures PromptKeys(Obj(m), m, keys, role) == PromptKeys(Obj(m'), m', keys, role)
    decreases |keys|
  {
    if keys != [] { SameKeysSamePrompt(m, m', keys[1..], role); }
  }

  /** What one turn of the loop over the keys writes. */
  lemma KeysStep(m: map<string, Json>, keys: seq<string>, i: nat, role: string, r: string)
    requires i < |keys|
    ensures var said := if keys[i] in m then Prompt(m[keys[i]], role) else "";
            r + PromptKeys(Obj(m), m, keys[i..], role) == r + said + PromptKeys(Obj(m), m, keys[i + 1..], role)
  {
    assert keys[i..][1..] == keys[i + 1..];
  }

  lemma ItemsStep(xs: seq<Json>, i: nat, role: string, r: string)
    requires i < |xs|
    ensures r + PromptItems(xs[i..], role) == r + Prompt(xs[i], role) + PromptItems(xs[i + 1..], role)
  {
    assert xs[i..][1..] == xs[i + 1..];
  }

  /** collectPrompt, with the string builder as the text written so far. */
  method CollectPrompt(b: string, v: Json, role: string) returns (r: string)
    ensures r == b + Prompt(v, role)
    decreases v, 0
  {
    match v
    case Obj(m) =>
      var own := RoleOf(m, role);
      r := b;
      var i := 0;
      while i < |PROMPT_KEYS|
        invariant 0 <= i <= |PROMPT_KEYS|
        invariant b + PromptKeys(v, m, PROMPT_KEYS, own) == r + PromptKeys(v, m, PROMPT_KEYS[i..], own)
      {
        var k := PROMPT_KEYS[i];
        KeysStep(m, PROMPT_KEYS, i, own, r);
        if k in m { r := CollectPrompt(r, m[k], own); }
        i := i + 1;
      }
    case Arr(xs) =>
      r := b;
      var i := 0;
      while i < |xs|
        invariant 0 <= i <= |xs|
        invariant b + PromptItems(xs, role) == r + PromptItems(xs[i..], role)
      {
        ItemsStep(xs, i, role, r);
        r := CollectPrompt(r, xs[i], role);
        i := i + 1;
      }
    case Str(s) => r := b + Said(s, role);
    case _ => r := b;
  }

  // ---------------------------------------------------------------- authentication status

  /** What a field says about being logged in, given how status texts are classified. */
  function Signal(classify: string -> Option<bool>, key: string, v: Json): Option<bool> {
    var k := Lower(TrimSpace(key));
    if k == "isauthenticated" || k == "authenticated" || k == "loggedin" then
      if v.Bool? then Some(v.b) else None
    else if k == "status" then
      if v.Str? then classify(v.s) else None
    else None
  }

  /** A node with a field that says so. */
  ghost function Says(classify: string -> Option<bool>, truth: bool): Json -> bool {
    (j: Json) => j.Obj? && exists k :: k in j.fields && Signal(classify, k, j.fields[k]) == Some(truth)
  }

  ghost predicate Tells(classify: string -> Option<bool>, m: map<string, Json>, k: string, truth: bool)
    requires k in m
  {
    Signal(classify, k, m[k]) == Some(truth) || Holds(m[k], Says(classify, truth))
  }

  /** Some field that has been gone through tells so. */
  ghost predicate Told(classify: string -> Option<bool>, m: map<string, Json>, rest: set<string>, truth: bool) {
    exists k :: k in m && k !in rest && Tells(classify, m, k, truth)
  }

  lemma ToldMore(classify: string -> Option<bool>, m: map<string, Json>, rest: set<string>, k: string, truth: bool)
    requires k in m && k in rest
    ensures Told(classify, m, rest - {k}, truth) <==> Told(classify, m, rest, truth) || Tells(classify, m, k, truth)
  {
    if x :| x in m && x !in rest - {k} && Tells(classify, m, x, truth) {
      assert x == k || Told(classify, m, rest, truth);
    }
    if x :| x in m && x !in rest && Tells(classify, m, x, truth) { assert x !in rest - {k}; }
    if Tells(classify, m, k, truth) { assert k !in rest - {k}; }
  }

  lemma ToldAll(classify: string -> Option<bool>, m: map<string, Json>, truth: bool)
    ensures Told(classify, m, {}, truth) <==> Holds(Obj(m), Says(classify, truth))
  {
    if Holds(Obj(m), Says(classify, truth)) {
      if Says(classify, truth)(Obj(m)) {
        var k :| k in m && Signal(classify, k, m[k]) == Some(truth);
        assert Tells(classify, m, k, truth);
      } else {
        var k :| k in m && Holds(m[k], Says(classify, truth));
        assert Tells(classify, m, k, truth);
      }
    }
  }

  /** The walk of parseCursorAuthJSON, appending to the list of truths. */
  method CollectTruths(classify: string -> Option<bool>, v: Json, before: seq<bool>) returns (truths: seq<bool>)
    ensures forall b :: b in truths <==> b in before || Holds(v, Says(classify, b))
    decreases v
  {
    truths := before;
    match v
    case Obj(m) =>
      var rest := m.Keys;
      while rest != {}
        invariant rest <= m.Keys
        invariant forall b :: b in truths <==> b in before || Told(classify, m, rest, b)
      {
        var k :| k in rest;
        var s := Signal(classify, k, m[k]);
        if s.Some? { truths := truths + [s.value]; }
        truths := CollectTruths(classify, m[k], truths);
        forall b { ToldMore(classify, m, rest, k, b); }
        rest := rest - {k};
      }
      forall b { ToldAll(classify, m, b); }
    case Arr(xs) =>
      for i := 0 to |xs|
        invariant forall b :: b in truths <==> b in before || exists k :: 0 <= k < i && Holds(xs[k], Says(classify, b))
      {
        truths := CollectTruths(classify, xs[i], truths);
      }
    case _ =>
  }

  /** The comparison of all truths with the first. */
  method AllAgree(truths: seq<bool>) returns (known: bool, authenticated: bool)
    ensures known <==> true in truths || false in truths
    ensures authenticated <==> true in truths && false !in truths
  {
    if |truths| == 0 { return false, false; }
    var first := truths[0];
    assert first in truths;
    for i := 1 to |truths|
      invariant forall k :: 0 <= k < i ==> truths[k] == first
    {
      if truths[i] != first { return true, false; }
    }
    return true, first;
  }

  /** Some object at some depth has a field named isAuthenticated, authenticated or loggedIn with
      that truth value, or a status text that is classified so. */
  ghost predicate Marked(classify: string -> Option<bool>, v: Json, truth: bool) {
    exists path: seq<Hop>, key: string :: MarkedAt(classify, At(v, path), key, truth)
  }

  ghost predicate MarkedAt(classify: string -> Option<bool>, node: Option<Json>, key: string, truth: bool) {
    && node.Some? && node.value.Obj? && key in node.value.fields
    && var name, field := Lower(TrimSpace(key)), node.value.fields[key];
       || (name in {"isauthenticated", "authenticated", "loggedin"} && field == Bool(truth))
       || (name == "status" && field.Str? && classify(field.s) == Some(truth))
  }

  lemma MarkedExactly(classify: string -> Option<bool>, v: Json, truth: bool)
    ensures Marked(classify, v, truth) <==> Somewhere(v, Says(classify, truth))
  {
    if Marked(classify, v, truth) {
      var path: seq<Hop>, key: string :| MarkedAt(classify, At(v, path), key, truth);
      SignalMeans(classify, key, At(v, path).value.fields[key], truth);
      assert Says(classify, truth)(At(v, path).value);
    }
    if Somewhere(v, Says(classify, truth)) {
      var path: seq<Hop> :| At(v, path).Some? && Says(classify, truth)(At(v, path).value);
      var m := At(v, path).value.fields;
      var key :| key in m && Signal(classify, key, m[key]) == Some(truth);
      SignalMeans(classify, key, m[key], truth);
      assert MarkedAt(classify, At(v, path), key, truth);
    }
  }

  lemma SignalMeans(classify: string -> Option<bool>, key: string, field: Json, truth: bool)
    ensures Signal(classify, key, field) == Some(truth) <==>
            var name := Lower(TrimSpace(key));
            || (name in {"isauthenticated", "authenticated", "loggedin"} && field == Bool(truth))
            || (name == "status" && field.Str? && classify(field.s) == Some(truth))
  {}

  /** parseCursorAuthJSON: the status is known exactly when some signal is found at some
      depth, and authenticated exactly when there is one and all of them are true. */
  method ParseCursorAuthJSON(classify: string -> Option<bool>, v: Json) returns (known: bool, authenticated: bool)
    ensures known <==> Marked(classify, v, true) || Marked(classify, v, false)
    ensures authenticated <==> Marked(classify, v, true) && !Marked(classify, v, false)
  {
    HoldsExactly(v, Says(classify, true));
    HoldsExactly(v, Says(classify, false));
    MarkedExactly(classify, v, true);
    MarkedExactly(classify, v, false);
    var truths := CollectTruths(classify, v, []);
    known, authenticated := AllAgree(truths);
  }
}
