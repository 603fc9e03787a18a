/**
 * The admin steps page script: HTML escaping, the challenge `<select>` options,
 * the edit-form payload, the CSRF header, the API error rule, the challenge
 * cache, the single edit form and the steps table. Network answers arrive as
 * parameters; the DOM is the abstract state of the class below.
 */
module AdminSteps {
  import opened Wrappers
  import opened Text
  import opened Json

  type Translations = map<string, string>

  /** `t(key, fallback)` of this script: a non-empty translation, else the fallback. */
  function AdminT(tr: Translations, key: string, fallback: string): (r: string)
    ensures key in tr && tr[key] != "" ==> r == tr[key]
    ensures key !in tr || tr[key] == "" ==> r == fallback
  {
    if key in tr && tr[key] != "" then tr[key] else fallback
  }

  // ---------------------------------------------------------------- escapeHtml

  /** `s.replace(/c/g, r)` for a one-character pattern. */
  function ReplaceAll(s: string, c: char, r: string): string
  {
    if s == [] then [] else (if s[0] == c then r else [s[0]]) + ReplaceAll(s[1..], c, r)
  }

  /** The five replacements of `escapeHtml`, ampersand first. */
  function EscapeHtml(s: string): string
  {
    ReplaceAll(ReplaceAll(ReplaceAll(ReplaceAll(ReplaceAll(s, '&', "&amp;"), '<', "&lt;"), '>', "&gt;"), '"', "&quot;"), '\'', "&#39;")
  }

  /** The reference: each character on its own. */
  function EscapeChar(c: char): string
  {
    if c == '&' then "&amp;"
    else if c == '<' then "&lt;"
    else if c == '>' then "&gt;"
    else if c == '"' then "&quot;"
    else if c == '\'' then "&#39;"
    else [c]
  }

  function EscapeEach(s: string): string
  {
    if s == [] then [] else EscapeChar(s[0]) + EscapeEach(s[1..])
  }

  lemma {:induction false} ReplaceAllConcat(a: string, b: string, c: char, r: string)
    ensures ReplaceAll(a + b, c, r) == ReplaceAll(a, c, r) + ReplaceAll(b, c, r)
  {
    if a == [] {
      assert a + b == b;
    } else {
      assert (a + b)[0] == a[0];
      assert (a + b)[1..] == a[1..] + b;
      ReplaceAllConcat(a[1..], b, c, r);
    }
  }

  lemma {:induction false} ReplaceAllAbsent(s: string, c: char, r: string)
    requires c !in s
    ensures ReplaceAll(s, c, r) == s
  {
    if s != [] {
      ReplaceAllAbsent(s[1..], c, r);
    }
  }

  lemma EscapeHtmlConcat(a: string, b: string)
    ensures EscapeHtml(a + b) == EscapeHtml(a) + EscapeHtml(b)
  {
    var a1, b1 := ReplaceAll(a, '&', "&amp;"), ReplaceAll(b, '&', "&amp;");
    ReplaceAllConcat(a, b, '&', "&amp;");
    var a2, b2 := ReplaceAll(a1, '<', "&lt;"), ReplaceAll(b1, '<', "&lt;");
    ReplaceAllConcat(a1, b1, '<', "&lt;");
    var a3, b3 := ReplaceAll(a2, '>', "&gt;"), ReplaceAll(b2, '>', "&gt;");
    ReplaceAllConcat(a2, b2, '>', "&gt;");
    var a4, b4 := ReplaceAll(a3, '"', "&quot;"), ReplaceAll(b3, '"', "&quot;");
    ReplaceAllConcat(a3, b3, '"', "&quot;");
    ReplaceAllConcat(a4, b4, '\'', "&#39;");
  }

  lemma ReplaceOne(c: char, d: char, r: string)
    ensures ReplaceAll([c], d, r) == if c == d then r else [c]
  {
    assert [c][1..] == [];
  }

  /** The characters the five entities are made of. */
  predicate EntityChar(c: char)
  {
    c == '#' || c == '&' || '0' <= c <= ';' || 'a' <= c <= 'z'
  }

  /** An entity contains none of the later patterns. */
  lemma EntityUntouched(e: string)
    requires forall i :: 0 <= i < |e| ==> EntityChar(e[i])
    ensures ReplaceAll(e, '<', "&lt;") == e && ReplaceAll(e, '>', "&gt;") == e
    ensures ReplaceAll(e, '"', "&quot;") == e && ReplaceAll(e, '\'', "&#39;") == e
  {
    assert '<' !in e;
    assert '>' !in e;
    assert '"' !in e;
    assert '\'' !in e;
    ReplaceAllAbsent(e, '<', "&lt;");
    ReplaceAllAbsent(e, '>', "&gt;");
    ReplaceAllAbsent(e, '"', "&quot;");
    ReplaceAllAbsent(e, '\'', "&#39;");
  }

  /** One character goes through the five replacements as `EscapeChar` says. */
  lemma EscapeHtmlOne(c: char)
    ensures EscapeHtml([c]) == EscapeChar(c)
  {
    ReplaceOne(c, '&', "&amp;");
    if c == '&' {
      EntityUntouched("&amp;");
    } else {
      ReplaceOne(c, '<', "&lt;");
      if c == '<' {
        EntityUntouched("&lt;");
      } else {
        ReplaceOne(c, '>', "&gt;");
        if c == '>' {
          EntityUntouched("&gt;");
        } else {
          ReplaceOne(c, '"', "&quot;");
          if c == '"' {
            EntityUntouched("&quot;");
          } else {
            ReplaceOne(c, '\'', "&#39;");
          }
        }
      }
    }
  }

  /** Replacing ampersands first makes the chain the same as escaping each character
      on its own: no entity produced by one step is touched by a later one. */
  lemma {:induction false} EscapeHtmlIsPerChar(s: string)
    ensures EscapeHtml(s) == EscapeEach(s)
  {
    if s == [] {
      assert EscapeHtml(s) == [];
    } else {
      assert s == [s[0]] + s[1..];
      EscapeHtmlConcat([s[0]], s[1..]);
      EscapeHtmlOne(s[0]);
      EscapeHtmlIsPerChar(s[1..]);
    }
  }

  /** The output has no raw `<`, `>`, `"` or `'`. (That the other characters are kept,
      in order, follows from `UnescapeEscape`.) */
  lemma {:induction false} EscapedHasNoSpecials(s: string)
    ensures var e := EscapeHtml(s);
      forall i :: 0 <= i < |e| ==> e[i] !in {'<', '>', '"', '\''}
  {
    EscapeHtmlIsPerChar(s);
    EscapeEachNoSpecials(s);
  }

  lemma {:induction false} EscapeEachNoSpecials(s: string)
    ensures forall i :: 0 <= i < |EscapeEach(s)| ==> EscapeEach(s)[i] !in {'<', '>', '"', '\''}
  {
    if s != [] {
      EscapeEachNoSpecials(s[1..]);
      var head := EscapeChar(s[0]);
      assert forall i :: 0 <= i < |head| ==> head[i] !in {'<', '>', '"', '\''};
    }
  }

  /** Decoding of the five entities, the partner of `EscapeHtml`. */
  function Unescape(s: string): string
    decreases |s|
  {
    if s == [] then []
    else if s[0] != '&' then [s[0]] + Unescape(s[1..])
    else if |s| >= 5 && s[..5] == "&amp;" then "&" + Unescape(s[5..])
    else if |s| >= 4 && s[..4] == "&lt;" then "<" + Unescape(s[4..])
    else if |s| >= 4 && s[..4] == "&gt;" then ">" + Unescape(s[4..])
    else if |s| >= 6 && s[..6] == "&quot;" then "\"" + Unescape(s[6..])
    else if |s| >= 5 && s[..5] == "&#39;" then "'" + Unescape(s[5..])
    else [s[0]] + Unescape(s[1..])
  }

  /** Escaping loses nothing: decoding gives the input back. */
  lemma {:induction false} UnescapeEscape(s: string)
    ensures Unescape(EscapeHtml(s)) == s
  {
    EscapeHtmlIsPerChar(s);
    UnescapeEach(s);
  }

  lemma {:induction false} UnescapeEach(s: string)
    ensures Unescape(EscapeEach(s)) == s
  {
    if s != [] {
      UnescapeEach(s[1..]);
      UnescapeHead(s[0], EscapeEach(s[1..]));
      assert s == [s[0]] + s[1..];
    }
  }

  /** Decoding reads back the escape of one character and goes on with the rest. */
  lemma UnescapeHead(c: char, rest: string)
    ensures Unescape(EscapeChar(c) + rest) == [c] + Unescape(rest)
  {
    var e := EscapeChar(c) + rest;
    if c == '&' {
      assert e[..5] == "&amp;" && e[5..] == rest;
    } else if c == '<' {
      assert |e| >= 5 ==> e[..5][1] == 'l';
      assert e[..4] == "&lt;" && e[4..] == rest;
    } else if c == '>' {
      assert |e| >= 5 ==> e[..5][1] == 'g';
      assert e[..4][1] == 'g';
      assert e[..4] == "&gt;" && e[4..] == rest;
    } else if c == '"' {
      assert e[..5][1] == 'q' && e[..4][1] == 'q';
      assert e[..6] == "&quot;" && e[6..] == rest;
    } else if c == '\'' {
      assert e[..5][1] == '#' && e[..4][1] == '#';
      assert |e| >= 6 ==> e[..6][1] == '#';
      assert e[..5] == "&#39;" && e[5..] == rest;
    } else {
      assert e[0] == c && e[1..] == rest;
    }
  }

  /** `escapeHtml(value)`: a falsy value gives ""; a string is escaped; any other
      value has no `replace`, so the call throws (None). */
  function EscapeValue(v: Value): (r: Option<string>)
    ensures !Truthy(v) ==> r == Some("")
    ensures v.Str? ==> r == Some(EscapeHtml(v.s))
    ensures Truthy(v) && !v.Str? ==> r.None?
  {
    if !Truthy(v) then Some("")
    else if v.Str? then Some(EscapeHtml(v.s))
    else None
  }

  /** `escapeHtml` on a string or null, as the page passes it. */
  function EscapeText(s: Option<string>): (r: string)
    ensures s.None? ==> r == ""
    ensures s.Some? ==> r == EscapeHtml(s.value)
  {
    if s.None? then "" else EscapeHtml(s.value)
  }

  lemma EscapeEmpty()
    ensures EscapeValue(Null) == Some("") && EscapeValue(Undefined) == Some("") && EscapeValue(Str("")) == Some("")
    ensures EscapeHtml("") == ""
  {
  }

  // ---------------------------------------------------- buildChallengeOptions

  /** A challenge as `/career/challenges` lists it; a name may be null. */
  datatype Challenge = Challenge(id: Value, name: Option<string>)

  /** The condition for ` selected`: a present `selectedId` strictly equal to the id. */
  predicate IsSelected(c: Challenge, selectedId: Value)
  {
    selectedId != Null && selectedId != Undefined && StrictEquals(c.id, selectedId)
  }

  function Placeholder(tr: Translations): string
  {
    "<option value=\"\">" + EscapeHtml(AdminT(tr, "Selecione um desafio...", "Selecione um desafio...")) + "</option>"
  }

  /** `<option value="${challenge.id}"${selected}>${escapeHtml(challenge.name)} (#${challenge.id})</option>`,
      in three parts: the opening up to the value, the attribute, and the rest. */
  function OptionLine(c: Challenge, selectedId: Value): string
  {
    OptionHead(c) + SelectedAttr(c, selectedId) + OptionRest(c)
  }

  function OptionHead(c: Challenge): string
  {
    "<option value=\"" + ToText(c.id) + "\""
  }

  function SelectedAttr(c: Challenge, selectedId: Value): string
  {
    if IsSelected(c, selectedId) then " selected" else ""
  }

  function OptionRest(c: Challenge): (r: string)
    ensures |r| >= 9 && r[0] == '>'
  {
    ">" + EscapeText(c.name) + " (#" + ToText(c.id) + ")</option>"
  }

  /** The `options` array after the `forEach` over the first `|cs|` challenges. */
  function OptionLines(first: string, cs: seq<Challenge>, selectedId: Value): (lines: seq<string>)
    ensures |lines| == |cs| + 1
  {
    if cs == [] then [first]
    else OptionLines(first, cs[..|cs| - 1], selectedId) + [OptionLine(cs[|cs| - 1], selectedId)]
  }

  /** `buildChallengeOptions(selectedId)`: the lines, with the translated placeholder
      first, joined by newlines, over the cached challenge list. */
  function BuildChallengeOptions(tr: Translations, cs: seq<Challenge>, selectedId: Value): string
  {
    Join(OptionLines(Placeholder(tr), cs, selectedId), "\n")
  }

  /** The placeholder comes first, then one option per challenge in list order. */
  lemma OptionLinesSpec(first: string, cs: seq<Challenge>, selectedId: Value)
    ensures var lines := OptionLines(first, cs, selectedId);
      lines[0] == first &&
      forall i :: 0 <= i < |cs| ==> lines[i + 1] == OptionLine(cs[i], selectedId)
  {
    OptionLinesFirst(first, cs, selectedId);
    forall i | 0 <= i < |cs|
      ensures OptionLines(first, cs, selectedId)[i + 1] == OptionLine(cs[i], selectedId)
    {
      OptionLinesAt(first, cs, selectedId, i);
    }
  }

  lemma {:induction false} OptionLinesFirst(first: string, cs: seq<Challenge>, selectedId: Value)
    ensures OptionLines(first, cs, selectedId)[0] == first
  {
    if cs != [] {
      OptionLinesFirst(first, cs[..|cs| - 1], selectedId);
    }
  }

  lemma {:induction false} OptionLinesAt(first: string, cs: seq<Challenge>, selectedId: Value, i: nat)
    requires i < |cs|
    ensures OptionLines(first, cs, selectedId)[i + 1] == OptionLine(cs[i], selectedId)
  {
    var init := cs[..|cs| - 1];
    var prev := OptionLines(first, init, selectedId);
    var lines := OptionLines(first, cs, selectedId);
    assert lines == prev + [OptionLine(cs[|cs| - 1], selectedId)];
    if i < |init| {
      OptionLinesAt(first, init, selectedId, i);
      assert lines[i + 1] == prev[i + 1];
      assert init[i] == cs[i];
    } else {
      assert lines[i + 1] == lines[|prev|];
    }
  }

  /** An option line carries ` selected` right after its value exactly when its
      challenge is selected; otherwise the tag closes there. */
  lemma OptionLineSelected(c: Challenge, selectedId: Value)
    ensures var line, n := OptionLine(c, selectedId), |OptionHead(c)|;
      |line| >= n + 9 &&
      (IsSelected(c, selectedId) <==> line[n..n + 9] == " selected") &&
      (!IsSelected(c, selectedId) <==> line[n] == '>')
  {
    AttributeAt(OptionHead(c), SelectedAttr(c, selectedId), OptionRest(c));
  }

  lemma AttributeAt(head: string, attr: string, rest: string)
    requires attr == " selected" || attr == ""
    requires |rest| >= 9 && rest[0] == '>'
    ensures var line, n := head + attr + rest, |head|;
      |line| >= n + 9 &&
      (attr == " selected" <==> line[n..n + 9] == " selected") &&
      (attr == "" <==> line[n] == '>')
  {
    var line, n := head + attr + rest, |head|;
    assert line[n..] == attr + rest;
    if attr == "" {
      assert line[n..n + 9][0] == '>';
    } else {
      assert line[n..n + 9] == attr;
    }
  }

  /** Null, undefined and NaN (the `Number` of a non-numeric select value) select nothing. */
  lemma NothingSelected(c: Challenge)
    ensures !IsSelected(c, Null) && !IsSelected(c, Undefined) && !IsSelected(c, NaN)
  {
  }

  /** With distinct ids at most one option is selected. */
  lemma AtMostOneSelected(cs: seq<Challenge>, selectedId: Value, i: int, j: int)
    requires forall a, b :: 0 <= a < b < |cs| ==> cs[a].id != cs[b].id
    requires 0 <= i < |cs| && 0 <= j < |cs|
    requires IsSelected(cs[i], selectedId) && IsSelected(cs[j], selectedId)
    ensures i == j
  {
  }

  // ------------------------------------------------------ payload normalisation

  /** What `FormData.get` gives for each field: a string, or null for a missing control. */
  datatype FormFields = FormFields(
    name: Option<string>, description: Option<string>, category: Option<string>,
    requiredSolves: Option<string>, challengeId: Option<string>, imageUrl: Option<string>)

  /** The JSON body sent with `PUT /career/steps/<id>`. */
  datatype StepPayload = StepPayload(
    name: Value, description: Value, category: Value,
    requiredSolves: Value, challengeId: Value, imageUrl: Value)

  /** `formData.get(k)`. */
  function FormValue(v: Option<string>): (r: Value)
    ensures r.Null? || r.Str?
  {
    if v.None? then Null else Str(v.value)
  }

  /** `formData.get(k) || null`. */
  function FormValueOrNull(v: Option<string>): (r: Value)
    ensures r != Str("")
    ensures r.Str? <==> v.Some? && v.value != ""
  {
    Or(FormValue(v), Null)
  }

  /** The payload after the `if`s that follow its construction. */
  function NormalizedPayload(form: FormFields): StepPayload
  {
    StepPayload(
      FormValue(form.name),
      FormValueOrNull(form.description),
      FormValueOrNull(form.category),
      if form.requiredSolves.Some? && form.requiredSolves.value != "" then NumberOf(form.requiredSolves.value) else Null,
      if form.challengeId.None? || form.challengeId.value == "" then Null else NumberOf(form.challengeId.value),
      FormValueOrNull(form.imageUrl))
  }

  /** The submit handler's payload: built from the form, then rewritten field by field. */
  method NormalizeStepPayload(form: FormFields) returns (p: StepPayload)
    ensures p == NormalizedPayload(form)
  {
    p := StepPayload(
      FormValue(form.name),
      FormValueOrNull(form.description),
      FormValueOrNull(form.category),
      FormValueOrNull(form.requiredSolves),
      FormValue(form.challengeId),
      FormValueOrNull(form.imageUrl));
    if p.requiredSolves != Null {
      p := p.(requiredSolves := NumberOf(p.requiredSolves.s));
    }
    if p.challengeId == Str("") || p.challengeId == Null {
      p := p.(challengeId := Null);
    } else {
      p := p.(challengeId := NumberOf(p.challengeId.s));
    }
    if p.imageUrl == Str("") {
      p := p.(imageUrl := Null);
    }
  }

  /** No empty string reaches the server for the optional text fields, both numeric
      fields are null or a Number, and the name is sent as typed. */
  lemma NormalizedShape(form: FormFields)
    ensures var p := NormalizedPayload(form);
      p.description != Str("") && p.category != Str("") && p.imageUrl != Str("") &&
      (p.requiredSolves.Null? || p.requiredSolves.Num? || p.requiredSolves.NaN?) &&
      (p.challengeId.Null? || p.challengeId.Num? || p.challengeId.NaN?) &&
      (p.requiredSolves.Null? <==> form.requiredSolves.None? || form.requiredSolves.value == "") &&
      (p.challengeId.Null? <==> form.challengeId.None? || form.challengeId.value == "") &&
      p.name == FormValue(form.name)
  {
  }

  /** A challenge id chosen from the options, which are written with `String(id)`,
      is sent back as that same number; so is a typed count. */
  lemma NormalizedNumbersRoundTrip(form: FormFields, id: int, solves: int)
    requires form.challengeId == Some(IntToString(id)) && form.requiredSolves == Some(IntToString(solves))
    ensures NormalizedPayload(form).challengeId == Num(id)
    ensures NormalizedPayload(form).requiredSolves == Num(solves)
  {
    NumberOfRoundTrip(id);
    NumberOfRoundTrip(solves);
    assert IntToString(id) != "" && IntToString(solves) != "" by {
      IntToStringNonEmpty(id);
      IntToStringNonEmpty(solves);
    }
  }

  lemma IntToStringNonEmpty(i: int)
    ensures IntToString(i) != ""
  {
  }

  // ------------------------------------------------------------ csrfHeader

  /** `csrfHeader()`: `window.init.csrfNonce` when truthy (Undefined when `window.init`
      is missing), else `window.csrfNonce` when defined, else the global `csrfNonce`
      when declared, else null. */
  function CsrfToken(initNonce: Value, windowNonce: Value, globalNonce: Value): (t: Value)
    ensures Truthy(initNonce) ==> t == initNonce
    ensures !Truthy(initNonce) && windowNonce != Undefined ==> t == windowNonce
    ensures !Truthy(initNonce) && windowNonce == Undefined && globalNonce != Undefined ==> t == globalNonce
    ensures !Truthy(initNonce) && windowNonce == Undefined && globalNonce == Undefined ==> t == Null
  {
    if Truthy(initNonce) then initNonce
    else if windowNonce != Undefined then windowNonce
    else if globalNonce != Undefined then globalNonce
    else Null
  }

  /** The headers `apiRequest` sends (without caller-supplied ones). */
  function RequestHeaders(token: Value): (h: map<string, Value>)
    ensures "Content-Type" in h && h["Content-Type"] == Str("application/json")
    ensures "CSRF-Token" in h <==> Truthy(token)
    ensures "CSRF-Token" in h ==> h["CSRF-Token"] == token
    ensures h.Keys <= {"Content-Type", "CSRF-Token"}
  {
    var base := map["Content-Type" := Str("application/json")];
    if Truthy(token) then base["CSRF-Token" := token] else base
  }

  /** A defined but empty `window.csrfNonce` is returned as is, so no header is sent;
      with no nonce anywhere none is sent either. */
  lemma CsrfHeaderOmitted(globalNonce: Value)
    ensures "CSRF-Token" !in RequestHeaders(CsrfToken(Undefined, Str(""), globalNonce))
    ensures "CSRF-Token" !in RequestHeaders(CsrfToken(Undefined, Undefined, Undefined))
  {
  }

  // ------------------------------------------------------------ apiRequest

  /** The JSON body of an answer; `data` is None when absent, and `dataMessage` is
      `data.message` when it is present. */
  datatype ApiBody<T> = ApiBody(success: Value, message: Value, data: Option<T>, dataMessage: Value)

  /** What `fetch` gives: a rejection, or a response whose body may fail to parse (None). */
  datatype ApiResponse<T> =
    | FetchRejected(reason: string)
    | Response(ok: bool, status: int, statusText: string, body: Option<ApiBody<T>>)

  /** `apiRequest` resolves with `payload.data` or throws an error with a message. */
  datatype ApiResult<T> = Returned(data: Option<T>) | Thrown(message: string)

  /** An unparsable body leaves `payload = {}`. */
  function BodyOf<T>(body: Option<ApiBody<T>>): ApiBody<T>
  {
    if body.Some? then body.value else ApiBody(Undefined, Undefined, None, Undefined)
  }

  function ApiRequest<T>(response: ApiResponse<T>): (r: ApiResult<T>)
    ensures response.FetchRejected? ==> r == Thrown(response.reason)
    ensures response.Response? ==>
      (r.Thrown? <==> !response.ok || BodyOf(response.body).success == Bool(false))
    ensures response.Response? && r.Thrown? ==>
      var b := BodyOf(response.body);
      if Truthy(b.message) then r.message == ToText(b.message)
      else if b.data.Some? && Truthy(b.dataMessage) then r.message == ToText(b.dataMessage)
      else r.message == IntToString(response.status) + " " + response.statusText
    ensures r.Returned? ==> r.data == BodyOf(response.body).data
  {
    match response
    case FetchRejected(reason) => Thrown(reason)
    case Response(ok, status, statusText, body) =>
      var b := BodyOf(body);
      if !ok || b.success == Bool(false) then
        var fromBody := Or(b.message, if b.data.Some? then b.dataMessage else Undefined);
        Thrown(ToText(Or(fromBody, Str(IntToString(status) + " " + statusText))))
      else Returned(b.data)
  }

  /** A truthy value never renders as "". */
  lemma TruthyText(v: Value)
    requires Truthy(v)
    ensures ToText(v) != ""
  {
    if v.Num? {
      IntToStringNonEmpty(v.n);
    }
  }

  /** An error answer always carries a non-empty message, so the "Unexpected error"
      fallback of the callers is only reached by a rejection without a message. */
  lemma ApiErrorMessageNonEmpty<T>(response: ApiResponse<T>)
    requires response.Response?
    requires ApiRequest(response).Thrown?
    ensures ApiRequest(response).message != ""
  {
    var b := BodyOf(response.body);
    if Truthy(b.message) {
      TruthyText(b.message);
    } else if b.data.Some? && Truthy(b.dataMessage) {
      TruthyText(b.dataMessage);
    }
  }

  /** A 200 answer whose body is not JSON resolves with nothing: `{}` has no `success`. */
  lemma UnparsableOkResolves<T>(status: int, statusText: string)
    ensures ApiRequest<T>(Response(true, status, statusText, None)) == ApiResult<T>.Returned(None)
  {
  }

  // ---------------------------------------------------------- challenge map

  /** `challengeMap` after `set(challenge.id, challenge)` for each listed challenge. */
  function ChallengeMapOf(cs: seq<Challenge>): map<Value, Challenge>
  {
    if cs == [] then map[]
    else ChallengeMapOf(cs[..|cs| - 1])[cs[|cs| - 1].id := cs[|cs| - 1]]
  }

  /** The map holds exactly the listed ids, each bound to a listed challenge with
      that id, and the last challenge listed under an id wins. */
  lemma ChallengeMapSpec(cs: seq<Challenge>)
    ensures var m := ChallengeMapOf(cs);
      m.Keys == (set c | c in cs :: c.id) &&
      (forall k :: k in m ==> m[k] in cs && m[k].id == k) &&
      (forall i :: 0 <= i < |cs| && (forall j :: i < j < |cs| ==> cs[j].id != cs[i].id) ==> m[cs[i].id] == cs[i])
  {
    ChallengeMapEntries(cs);
    forall i | 0 <= i < |cs| && (forall j :: i < j < |cs| ==> cs[j].id != cs[i].id)
      ensures ChallengeMapOf(cs)[cs[i].id] == cs[i]
    {
      ChallengeMapLast(cs, i);
    }
  }

  lemma {:induction false} ChallengeMapEntries(cs: seq<Challenge>)
    ensures var m := ChallengeMapOf(cs);
      m.Keys == (set c | c in cs :: c.id) &&
      forall k :: k in m ==> m[k] in cs && m[k].id == k
  {
    if cs != [] {
      var init, last := cs[..|cs| - 1], cs[|cs| - 1];
      ChallengeMapEntries(init);
      assert cs == init + [last];
    }
  }

  lemma {:induction false} ChallengeMapLast(cs: seq<Challenge>, i: int)
    requires 0 <= i < |cs|
    requires forall j :: i < j < |cs| ==> cs[j].id != cs[i].id
    ensures cs[i].id in ChallengeMapOf(cs) && ChallengeMapOf(cs)[cs[i].id] == cs[i]
  {
    var init := cs[..|cs| - 1];
    if i < |init| {
      assert init[i] == cs[i];
      forall j | i < j < |init| ensures init[j].id != init[i].id { assert init[j] == cs[j]; }
      ChallengeMapLast(init, i);
    }
  }

  // ------------------------------------------------------------- steps table

  /** A career as `/career` lists it. */
  datatype AdminCareer = AdminCareer(id: Value, name: Option<string>)

  /** A step as `/career/steps/<career id>` lists it. */
  datatype AdminStep = AdminStep(
    id: Value, name: Option<string>, category: Option<string>, challengeId: Value,
    requiredSolves: Value, imageUrl: Option<string>, description: Option<string>)

  /** One `{ career, steps }` entry passed to `renderTable`. */
  datatype CareerSteps = CareerSteps(career: AdminCareer, steps: seq<AdminStep>)

  /** A table row: a career header, a "No steps available" row, or a step row with
      its first six cells as HTML (the seventh holds the action buttons). */
  datatype Row = HeaderRow(text: string) | EmptyRow(text: string) | StepRow(cells: seq<string>)

  function HeaderText(tr: Translations, career: AdminCareer): string
  {
    (if career.name.Some? && career.name.value != "" then career.name.value else AdminT(tr, "Career", "Career"))
      + " (#" + ToText(career.id) + ")"
  }

  function NoStepsRow(tr: Translations): Row
  {
    EmptyRow(AdminT(tr, "No steps available", "No steps available"))
  }

  /** The challenge cell: the mapped challenge's name, or the id itself when the id is
      unknown or the name empty, then the id; empty when the step has no challenge. */
  function ChallengeLabel(challenges: map<Value, Challenge>, id: Value): (text: string)
    ensures id.Null? || id.Undefined? ==> text == ""
  {
    if id.Null? || id.Undefined? then ""
    else
      var name :=
        if id in challenges && challenges[id].name.Some? && challenges[id].name.value != ""
        then challenges[id].name.value else ToText(id);
      EscapeHtml(name) + " (#" + EscapeHtml(ToText(id)) + ")"
  }

  /** `String(value ?? 0)`. */
  function CountText(v: Value): string
  {
    if v.Null? || v.Undefined? then "0" else ToText(v)
  }

  function ImageCell(tr: Translations, url: Option<string>): string
  {
    if url.Some? && url.value != "" then
      "<a href=\"" + EscapeHtml(url.value) + "\" target=\"_blank\" rel=\"noopener noreferrer\">" + AdminT(tr, "View", "View") + "</a>"
    else ""
  }

  function StepCells(tr: Translations, challenges: map<Value, Challenge>, career: AdminCareer, step: AdminStep): (cells: seq<string>)
    ensures |cells| == 6
  {
    [EscapeText(step.name), EscapeText(career.name), EscapeText(step.category),
     ChallengeLabel(challenges, step.challengeId), EscapeHtml(CountText(step.requiredSolves)),
     ImageCell(tr, step.imageUrl)]
  }

  /** The rows one career adds: its header, then its steps or the empty row. */
  function CareerRows(tr: Translations, challenges: map<Value, Challenge>, entry: CareerSteps): seq<Row>
  {
    [HeaderRow(HeaderText(tr, entry.career))] +
    if entry.steps == [] then [NoStepsRow(tr)]
    else seq(|entry.steps|, i requires 0 <= i < |entry.steps| => StepRow(StepCells(tr, challenges, entry.career, entry.steps[i])))
  }

  /** The rows of the first `|entries|` careers. */
  function RowsOf(tr: Translations, challenges: map<Value, Challenge>, entries: seq<CareerSteps>): seq<Row>
  {
    if entries == [] then []
    else RowsOf(tr, challenges, entries[..|entries| - 1]) + CareerRows(tr, challenges, entries[|entries| - 1])
  }

  /** The table body `renderTable` leaves: a lone empty row when there are no careers. */
  function TableRowsOf(tr: Translations, challenges: map<Value, Challenge>, entries: seq<CareerSteps>): seq<Row>
  {
    if entries == [] then [NoStepsRow(tr)] else RowsOf(tr, challenges, entries)
  }

  /** A career without steps shows its header and exactly one "No steps available"
      row; one with steps shows one row per step, in order, and no empty row. */
  lemma CareerRowsSpec(tr: Translations, challenges: map<Value, Challenge>, entry: CareerSteps)
    ensures var rows := CareerRows(tr, challenges, entry);
      rows[0] == HeaderRow(HeaderText(tr, entry.career)) &&
      (entry.steps == [] ==> rows == [HeaderRow(HeaderText(tr, entry.career)), NoStepsRow(tr)]) &&
      (entry.steps != [] ==>
         |rows| == |entry.steps| + 1 &&
         forall i :: 0 <= i < |entry.steps| ==>
           rows[i + 1] == StepRow(StepCells(tr, challenges, entry.career, entry.steps[i])))
  {
    var header := [HeaderRow(HeaderText(tr, entry.career))];
    if entry.steps != [] {
      var body := seq(|entry.steps|, i requires 0 <= i < |entry.steps| =>
                        StepRow(StepCells(tr, challenges, entry.career, entry.steps[i])));
      assert CareerRows(tr, challenges, entry) == header + body;
      assert forall i :: 0 <= i < |entry.steps| ==> (header + body)[i + 1] == body[i];
    }
  }

  /** Each career contributes its header and at least one more row, so the table has
      at least two rows per career, and an empty list of careers gives one row. */
  lemma {:induction false} TableRowsCount(tr: Translations, challenges: map<Value, Challenge>, entries: seq<CareerSteps>)
    ensures entries == [] ==> TableRowsOf(tr, challenges, entries) == [NoStepsRow(tr)]
    ensures |RowsOf(tr, challenges, entries)| >= 2 * |entries|
  {
    if entries != [] {
      TableRowsCount(tr, challenges, entries[..|entries| - 1]);
    }
  }

  /** An id missing from the map, or mapped to a challenge without a name, is shown by
      its own text twice; a named challenge is shown by its escaped name. */
  lemma ChallengeLabelFallback(challenges: map<Value, Challenge>, id: Value)
    requires !id.Null? && !id.Undefined?
    ensures id !in challenges || challenges[id].name.None? || challenges[id].name == Some("") ==>
      ChallengeLabel(challenges, id) == EscapeHtml(ToText(id)) + " (#" + EscapeHtml(ToText(id)) + ")"
    ensures id in challenges && challenges[id].name.Some? && challenges[id].name.value != "" ==>
      ChallengeLabel(challenges, id) == EscapeHtml(challenges[id].name.value) + " (#" + EscapeHtml(ToText(id)) + ")"
  {
  }

  // ------------------------------------------------------------- page state

  /** The alert `displayMessage` puts in the status element. */
  datatype Alert = Alert(level: string, message: string)

  /** The open edit form: the step it edits and the markup of its challenge select. */
  datatype EditForm = EditForm(stepId: Value, selectHtml: string)

  /** The admin steps page: the module-level cache and map, the status element,
      `currentEditRow`, and the rows of the table body. */
  class AdminPage {
    const tr: Translations
    /** Whether `#career-steps-status` and the table body exist. */
    const hasStatus: bool
    const hasTable: bool

    var challengeOptions: seq<Challenge>
    var challengeMap: map<Value, Challenge>
    var status: Option<Alert>
    /** `currentEditRow`, and how many edit-form rows the table body holds. */
    var editRow: Option<EditForm>
    var formRows: nat
    var tableRows: seq<Row>

    /** At most one edit form is in the table, and only the current one. */
    ghost predicate Valid()
      reads this
    {
      formRows <= 1 && (formRows == 1 ==> editRow.Some?)
    }

    constructor(tr: Translations, hasStatus: bool, hasTable: bool)
      ensures Valid()
      ensures this.tr == tr && this.hasStatus == hasStatus && this.hasTable == hasTable
      ensures challengeOptions == [] && challengeMap == map[] && status == None
      ensures editRow == None && formRows == 0 && tableRows == []
    {
      this.tr := tr;
      this.hasStatus := hasStatus;
      this.hasTable := hasTable;
      challengeOptions := [];
      challengeMap := map[];
      status := None;
      editRow := None;
      formRows := 0;
      tableRows := [];
    }

    /** `displayMessage(level, message)`: the status is cleared, then shows the message
        unless it is empty. */
    method DisplayMessage(level: string, message: string)
      modifies this`status
      ensures hasStatus ==> status == (if message == "" then None else Some(Alert(level, message)))
      ensures !hasStatus ==> status == old(status)
    {
      if !hasStatus {
        return;
      }
      status := None;
      if message == "" {
        return;
      }
      status := Some(Alert(level, message));
    }

    /** `error.message || t("Unexpected error")`. */
    function ErrorText(message: string): (r: string)
      reads this
      ensures message != "" ==> r == message
      ensures r != ""
    {
      if message != "" then message else AdminT(tr, "Unexpected error", "Unexpected error")
    }

    /** `loadChallenges(force)`, with the answer of `/career/challenges` and the current
        value of the challenge select, if the edit form is in the page. None is the
        rethrown error. */
    method LoadChallenges(force: bool, response: ApiResponse<seq<Challenge>>, selectValue: string)
      returns (r: Option<seq<Challenge>>)
      requires Valid()
      modifies this`challengeOptions, this`challengeMap, this`status, this`editRow
      ensures Valid()
      ensures !force && old(challengeOptions) != [] ==>
        r == Some(old(challengeOptions)) && challengeOptions == old(challengeOptions) &&
        challengeMap == old(challengeMap) && status == old(status) && editRow == old(editRow)
      ensures (force || old(challengeOptions) == []) && ApiRequest(response).Thrown? ==>
        r.None? && challengeOptions == old(challengeOptions) && challengeMap == old(challengeMap) &&
        editRow == old(editRow) &&
        (hasStatus ==> status == Some(Alert("danger", ErrorText(ApiRequest(response).message))))
      ensures (force || old(challengeOptions) == []) && ApiRequest(response).Returned? ==>
        var data := ApiRequest(response).data;
        var cs := if data.Some? then data.value else [];
        r == Some(cs) && challengeOptions == cs && challengeMap == ChallengeMapOf(cs) &&
        status == old(status) &&
        editRow == (if old(editRow).Some? && formRows == 1
          then Some(old(editRow).value.(selectHtml := BuildChallengeOptions(tr, cs,
            if selectValue != "" then NumberOf(selectValue) else Null)))
          else old(editRow))
    {
      if !force && challengeOptions != [] {
        return Some(challengeOptions);
      }
      var outcome := ApiRequest(response);
      if outcome.Thrown? {
        DisplayMessage("danger", ErrorText(outcome.message));
        return None;
      }
      var cs := if outcome.data.Some? then outcome.data.value else [];
      challengeOptions := cs;
      challengeMap := map[];
      for i := 0 to |cs|
        invariant challengeMap == ChallengeMapOf(cs[..i])
        invariant challengeOptions == cs && status == old(status) && editRow == old(editRow)
      {
        assert cs[..i + 1][..i] == cs[..i];
        challengeMap := challengeMap[cs[i].id := cs[i]];
      }
      assert cs[..|cs|] == cs;
      if editRow.Some? && formRows == 1 {
        var current := if selectValue != "" then NumberOf(selectValue) else Null;
        editRow := Some(editRow.value.(selectHtml := BuildChallengeOptions(tr, cs, current)));
      }
      r := Some(cs);
    }

    /** `closeEditForm()`: the form row leaves the table if it is there. */
    method CloseEditForm()
      requires Valid()
      modifies this`editRow, this`formRows
      ensures Valid() && editRow == None && formRows == 0
    {
      if editRow.Some? && formRows > 0 {
        formRows := formRows - 1;
      }
      editRow := None;
    }

    /** `openEditForm(step, career, anchorRow)`: any open form is closed first, and the
        new one is inserted with the challenge options preselecting the step's challenge. */
    method OpenEditForm(step: AdminStep)
      requires Valid() && hasTable
      modifies this`editRow, this`formRows
      ensures Valid() && formRows == 1
      ensures editRow == Some(EditForm(step.id, BuildChallengeOptions(tr, challengeOptions, step.challengeId)))
    {
      CloseEditForm();
      formRows := formRows + 1;
      editRow := Some(EditForm(step.id, BuildChallengeOptions(tr, challengeOptions, step.challengeId)));
    }

    /** The submit handler of the edit form, with the answer of the `PUT`; the reload
        by `loadSteps` that follows a success is not part of this model. */
    method SubmitEdit(form: FormFields, response: ApiResponse<Value>) returns (payload: StepPayload)
      requires Valid()
      modifies this`status, this`editRow, this`formRows
      ensures Valid()
      ensures payload == NormalizedPayload(form)
      ensures ApiRequest(response).Returned? ==>
        editRow == None && formRows == 0 &&
        (hasStatus ==> status == Some(Alert("success", AdminT(tr, "Step updated", "Step updated"))))
      ensures ApiRequest(response).Thrown? ==>
        editRow == old(editRow) && formRows == old(formRows) &&
        (hasStatus ==> status == Some(Alert("danger", ErrorText(ApiRequest(response).message))))
    {
      payload := NormalizeStepPayload(form);
      var outcome := ApiRequest(response);
      if outcome.Returned? {
        DisplayMessage("success", AdminT(tr, "Step updated", "Step updated"));
        CloseEditForm();
      } else {
        DisplayMessage("danger", ErrorText(outcome.message));
      }
    }

    /** `renderTable(careerSteps)`: the body is emptied, which drops the edit form row
        while `currentEditRow` keeps pointing at it, then refilled career by career. */
    method RenderTable(entries: seq<CareerSteps>)
      requires Valid()
      modifies this`tableRows, this`formRows
      ensures Valid() && editRow == old(editRow)
      ensures hasTable ==> tableRows == TableRowsOf(tr, challengeMap, entries) && formRows == 0
      ensures !hasTable ==> tableRows == old(tableRows) && formRows == old(formRows)
    {
      if !hasTable {
        return;
      }
      formRows := 0;
      var rows: seq<Row> := [];
      for i := 0 to |entries|
        invariant rows == RowsOf(tr, challengeMap, entries[..i])
      {
        assert entries[..i + 1][..i] == entries[..i];
        rows := rows + CareerRows(tr, challengeMap, entries[i]);
      }
      assert entries[..|entries|] == entries;
      if entries == [] {
        rows := rows + [NoStepsRow(tr)];
      }
      tableRows := rows;
    }
  }
}
