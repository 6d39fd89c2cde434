/**
 * How a container daemon's diagnostics are read as proof that an instance is
 * absent, or as a report that its name is taken. The text is already lower
 * case, as the reader makes it before anything else.
 */
module ContainerReport {
  import opened Common
  import opened Text

  datatype Form = Form(prefix: string, suffix: string)

  const FORMS: seq<Form> := [
    Form("no such container", ""), Form("no such instance", ""),
    Form("instance", "not found"), Form("the instance", "not found"),
    Form("instance", "does not exist"), Form("the instance", "does not exist"),
    Form("could not find container", "")]

  predicate IsAlphanumeric(c: char)
  {
    '0' <= c <= '9' || 'a' <= c <= 'z' || 'A' <= c <= 'Z'
  }

  predicate IsNameChar(c: char)
  {
    IsAlphanumeric(c) || c == '-' || c == '_' || c == '.'
  }

  predicate IsQuote(c: char)
  {
    c == '"' || c == '\''
  }

  predicate IsReportPunctuation(c: char)
  {
    || c == ' ' || c == '\t' || c == '\n' || c == '\U{0C}' || c == '\r'
    || c == '.' || c == ':' || c == ';' || c == ',' || c == '!'
  }

  predicate OnlyReportPunctuation(text: string)
  {
    forall c | c in text :: IsReportPunctuation(c)
  }

  predicate StartsQuoted(text: string)
  {
    text != "" && IsQuote(text[0])
  }

  predicate StartsNamed(text: string)
  {
    text != "" && IsNameChar(text[0])
  }

  predicate StartsAlphanumeric(text: string)
  {
    text != "" && IsAlphanumeric(text[0])
  }

  predicate StartsBlank(text: string)
  {
    text != "" && IsWhitespace(text[0])
  }

  /** What follows the instance when the text starts with exactly this instance, quoted or not. */
  function ExactInstanceSuffix(text: string, instance: string): Option<string>
  {
    if StartsQuoted(text) then
      var quoted := text[1..];
      var end := IndexOf(quoted, text[0]);
      if end < |quoted| && quoted[..end] == instance then Some(quoted[end + 1..]) else None
    else if instance <= text && !StartsNamed(text[|instance|..]) then Some(text[|instance|..])
    else None
  }

  function StripColon(text: string): string
  {
    if text != "" && text[0] == ':' then text[1..] else text
  }

  /** Whether what follows the instance completes the report. */
  predicate Completes(rest: string, suffix: string)
  {
    if suffix == "" then OnlyReportPunctuation(rest)
    else
      && suffix <= rest
      && !StartsAlphanumeric(rest[|suffix|..])
      && OnlyReportPunctuation(TrimStart(rest[|suffix|..]))
  }

  /** Whether an occurrence of the prefix at `start` begins an absence report. */
  predicate AbsenceAt(line: string, start: nat, form: Form, instance: string)
  {
    && start + |form.prefix| <= |line|
    && line[start..start + |form.prefix|] == form.prefix
    && (start > 0 ==> !IsNameChar(line[start - 1]))
    && var after := TrimStart(StripColon(TrimStart(line[start + |form.prefix|..])));
       var rest := ExactInstanceSuffix(after, instance);
       rest.Some? && Completes(TrimStart(rest.value), form.suffix)
  }

  predicate DaemonAbsenceLine(line: string, form: Form, instance: string)
  {
    exists start | 0 <= start <= |line| :: AbsenceAt(line, start, form, instance)
  }

  predicate AbsenceLine(line: string, instance: string)
  {
    exists i | 0 <= i < |FORMS| :: DaemonAbsenceLine(line, FORMS[i], instance)
  }

  predicate OccursAt(text: string, part: string, i: nat)
  {
    i + |part| <= |text| && text[i..i + |part|] == part
  }

  predicate Contains(text: string, part: string)
  {
    exists i | 0 <= i <= |text| :: OccursAt(text, part, i)
  }

  function StripCr(line: string): string
  {
    if line != "" && line[|line| - 1] == '\r' then line[..|line| - 1] else line
  }

  /** Whether the diagnostics prove that the instance is absent; a client-side failure proves nothing. */
  predicate IsDaemonAbsentReport(lower: string, instance: string)
  {
    && !Contains(lower, "file or directory") && !Contains(lower, "socket")
    && exists line | line in SplitOn(lower, '\n') :: AbsenceLine(StripCr(line), instance)
  }

  predicate IsInstanceExistsReport(lower: string, instance: string)
  {
    Contains(lower, instance) && SaysExists(lower)
  }

  predicate SaysExists(lower: string)
  {
    Contains(lower, "already exists") || Contains(lower, "already in use") || Contains(lower, "exists already")
  }

  // ---- the accepted lines as a grammar ----

  /** A lower-case alphanumeric name, as the generated names and the daemon's ids are. */
  predicate IsName(name: string)
  {
    name != "" && forall c | c in name :: '0' <= c <= '9' || 'a' <= c <= 'z'
  }

  /** The parts of an accepted line. */
  datatype Reading = Reading(before: string, gap: string, colon: string, space: string, quote: string, after: string,
    tail: string)

  function Written(r: Reading, form: Form, name: string): string
  {
    r.before + (form.prefix + (r.gap + (r.colon + (r.space + Named(r, form, name)))))
  }

  function Named(r: Reading, form: Form, name: string): string
  {
    (r.quote + name + r.quote) + Ending(r, form)
  }

  function Ending(r: Reading, form: Form): string
  {
    r.after + (form.suffix + r.tail)
  }

  predicate IsReading(r: Reading, form: Form)
  {
    && (r.before != "" ==> !IsNameChar(r.before[|r.before| - 1]))
    && AllWhitespace(r.gap) && AllWhitespace(r.space) && AllWhitespace(r.after)
    && (r.colon == ":" || (r.colon == "" && r.space == ""))
    && (r.quote == "" || r.quote == "\"" || r.quote == "'")
    && (r.quote == "" ==> !StartsNamed(Ending(r, form)))
    && (if form.suffix == "" then !StartsBlank(r.tail) && OnlyReportPunctuation(r.tail)
        else !StartsAlphanumeric(r.tail) && OnlyReportPunctuation(TrimStart(r.tail)))
  }

  ghost predicate Reads(line: string, form: Form, name: string, r: Reading)
  {
    IsReading(r, form) && line == Written(r, form, name)
  }

  /** The suffix of a form starts and ends with a letter. */
  predicate IsForm(form: Form)
  {
    form.suffix != "" ==> IsAlphanumeric(form.suffix[0]) && IsAlphanumeric(form.suffix[|form.suffix| - 1])
  }

  lemma NameAhead(text: string, name: string) returns (quote: string, rest: string)
    requires IsName(name) && ExactInstanceSuffix(text, name).Some?
    ensures rest == ExactInstanceSuffix(text, name).value && text == (quote + name + quote) + rest
    ensures quote == "" || quote == "\"" || quote == "'"
    ensures quote == "" ==> !StartsNamed(rest)
  {
    hide IsNameChar; hide IsName;
    rest := ExactInstanceSuffix(text, name).value;
    if StartsQuoted(text) {
      quote := [text[0]];
      QuotedName(text, name, rest);
    } else {
      quote := "";
      assert quote + name + quote == name;
    }
  }

  lemma QuotedName(text: string, name: string, rest: string)
    requires StartsQuoted(text) && ExactInstanceSuffix(text, name) == Some(rest)
    ensures text == ([text[0]] + name + [text[0]]) + rest
  {
    var quoted := text[1..];
    var end := IndexOf(quoted, text[0]);
    assert quoted == quoted[..end] + [quoted[end]] + quoted[end + 1..];
    assert text == [text[0]] + quoted;
  }

  lemma NameFound(quote: string, name: string, rest: string)
    requires IsName(name) && (quote == "" || quote == "\"" || quote == "'")
    requires quote == "" ==> !StartsNamed(rest)
    ensures ExactInstanceSuffix((quote + name + quote) + rest, name) == Some(rest)
  {
    var text := (quote + name + quote) + rest;
    if quote == "" {
      assert text == name + rest;
      assert text[0] == name[0] && name[0] in name;
      assert text[|name|..] == rest;
    } else {
      var quoted := text[1..];
      assert quoted == name + (quote + rest);
      FirstQuote(name, quote[0], rest);
      assert quoted[|name| + 1..] == rest;
    }
  }

  lemma {:induction false} FirstQuote(name: string, quote: char, rest: string)
    requires quote !in name
    ensures IndexOf(name + ([quote] + rest), quote) == |name|
  {
    if name == "" {
      assert name + ([quote] + rest) == [quote] + rest;
    } else {
      assert (name + ([quote] + rest))[1..] == name[1..] + ([quote] + rest);
      FirstQuote(name[1..], quote, rest);
    }
  }

  lemma EndingAhead(rest: string, form: Form) returns (after: string, tail: string)
    requires Completes(TrimStart(rest), form.suffix)
    ensures rest == after + (form.suffix + tail) && AllWhitespace(after)
    ensures if form.suffix == "" then !StartsBlank(tail) && OnlyReportPunctuation(tail)
            else !StartsAlphanumeric(tail) && OnlyReportPunctuation(TrimStart(tail))
  {
    hide IsWhitespace; hide IsReportPunctuation; hide IsAlphanumeric; hide AllWhitespace;
    after := TrimStartSplits(rest);
    TrimStartStops(rest);
    tail := TrimStart(rest)[|form.suffix|..];
    assert TrimStart(rest) == form.suffix + tail;
  }

  lemma EndingFound(r: Reading, form: Form)
    requires IsReading(r, form) && IsForm(form)
    ensures Completes(TrimStart(Ending(r, form)), form.suffix)
  {
    var rest := form.suffix + r.tail;
    assert form.suffix == "" ==> rest == r.tail;
    TrimStartDrops(r.after, rest);
    assert rest[|form.suffix|..] == r.tail;
  }

  /** Every accepted line is a reading. */
  lemma AcceptedReads(line: string, start: nat, form: Form, name: string) returns (r: Reading)
    requires IsName(name) && AbsenceAt(line, start, form, name)
    ensures Reads(line, form, name, r)
  {
    hide Completes; hide ExactInstanceSuffix; hide TrimStart; hide IsWhitespace; hide IsNameChar;
    hide Written; hide IsName;
    hide StripColon; hide OnlyReportPunctuation; hide StartsBlank; hide StartsAlphanumeric; hide StartsNamed;
    var text := line[start + |form.prefix|..];
    var gap := TrimStartSplits(text);
    var stripped := StripColon(TrimStart(text));
    var colon, space := ColonSpace(text);
    var quote, rest := NameAhead(TrimStart(stripped), name);
    var after, tail := EndingAhead(rest, form);
    r := Reading(line[..start], gap, colon, space, quote, after, tail);
    CutAround(line, start, form.prefix);
    WrittenOut(r, form, name, text, TrimStart(text), stripped, TrimStart(stripped));
  }

  lemma CutAround(line: string, start: nat, prefix: string)
    requires start + |prefix| <= |line| && line[start..start + |prefix|] == prefix
    ensures line == line[..start] + (prefix + line[start + |prefix|..])
    ensures start > 0 ==> line[..start][|line[..start]| - 1] == line[start - 1]
  {
  }

  lemma WrittenOut(r: Reading, form: Form, name: string, text: string, trimmed: string, stripped: string, named: string)
    requires text == r.gap + trimmed && trimmed == r.colon + stripped && stripped == r.space + named
    requires named == (r.quote + name + r.quote) + Ending(r, form)
    ensures r.before + (form.prefix + text) == Written(r, form, name)
  {
  }

  /** After a colon more whitespace may follow; without one there is none left. */
  lemma ColonSpace(text: string) returns (colon: string, space: string)
    ensures TrimStart(text) == colon + StripColon(TrimStart(text))
    ensures StripColon(TrimStart(text)) == space + TrimStart(StripColon(TrimStart(text))) && AllWhitespace(space)
    ensures colon == ":" || (colon == "" && space == "")
  {
    hide IsWhitespace; hide AllWhitespace;
    var trimmed := TrimStart(text);
    space := TrimStartSplits(StripColon(trimmed));
    TrimStartStops(text);
    if trimmed != "" && trimmed[0] == ':' {
      colon := ":";
    } else {
      colon := "";
      assert TrimStart(trimmed) == trimmed;
      assert |space| == 0;
    }
  }

  /** Every reading is accepted. */
  lemma ReadsAccepted(line: string, form: Form, name: string, r: Reading)
    requires IsName(name) && IsForm(form) && Reads(line, form, name, r)
    ensures AbsenceAt(line, |r.before|, form, name)
  {
    hide Completes; hide ExactInstanceSuffix; hide TrimStart;
    var named := Named(r, form, name);
    var text := r.gap + (r.colon + (r.space + named));
    assert line == r.before + (form.prefix + text);
    assert line[|r.before|..] == form.prefix + text;
    assert line[|r.before| + |form.prefix|..] == text;
    NamedStarts(r, form, name);
    var marked := r.colon + (r.space + named);
    TrimStartDrops(r.gap, marked);
    TrimStartDrops(r.space, named);
    if r.colon == "" {
      assert StripColon(marked) == named &&
        TrimStart(named) == named by { TrimStartDrops("", named); assert "" + named == named; }
    } else {
      assert StripColon(marked) == r.space + named;
    }
    NameFound(r.quote, name, Ending(r, form));
    EndingFound(r, form);
  }

  lemma NamedStarts(r: Reading, form: Form, name: string)
    requires IsName(name) && IsReading(r, form)
    ensures var named := Named(r, form, name);
      named != "" && !IsWhitespace(named[0]) && named[0] != ':' &&
        (r.colon == "" ==> r.colon + (r.space + named) == named)
  {
    var named := Named(r, form, name);
    assert named[0] == if r.quote == "" then name[0] else r.quote[0];
    assert name[0] in name;
  }

  /** The recogniser accepts exactly the lines of the grammar. */
  lemma AbsenceLineIsGrammar(line: string, name: string)
    requires IsName(name)
    ensures AbsenceLine(line, name) <==> exists i, r | 0 <= i < |FORMS| :: Reads(line, FORMS[i], name, r)
  {
    hide AbsenceAt; hide Reads;
    FormsOk();
    forall i, start | 0 <= i < |FORMS| && 0 <= start <= |line| && AbsenceAt(line, start, FORMS[i], name)
      ensures exists r :: Reads(line, FORMS[i], name, r)
    {
      var r := AcceptedReads(line, start, FORMS[i], name);
    }
    forall i, r | 0 <= i < |FORMS| && Reads(line, FORMS[i], name, r)
      ensures DaemonAbsenceLine(line, FORMS[i], name)
    {
      ReadsAccepted(line, FORMS[i], name, r);
      BeforeInside(line, FORMS[i], name, r);
    }
  }

  lemma BeforeInside(line: string, form: Form, name: string, r: Reading)
    requires Reads(line, form, name, r)
    ensures |r.before| <= |line|
  {
  }

  lemma FormsOk()
    ensures forall i | 0 <= i < |FORMS| :: IsForm(FORMS[i])
    ensures forall i | 0 <= i < |FORMS| :: IsKnownSuffix(FORMS[i].suffix)
    ensures forall i | 0 <= i < |FORMS| :: EndsLikePrefix(FORMS[i].prefix)
  {
  }

  predicate IsKnownSuffix(suffix: string)
  {
    suffix == "" || suffix == "not found" || suffix == "does not exist"
  }

  /** Every prefix ends with "container" or "instance". */
  predicate EndsLikePrefix(text: string)
  {
    |text| >= 2 && var a, b := text[|text| - 2], text[|text| - 1]; (a == 'e' && b == 'r') || (a == 'c' && b == 'e')
  }

  // ---- one line speaks about one instance ----

  predicate IsTrailing(c: char)
  {
    IsWhitespace(c) || IsReportPunctuation(c)
  }

  predicate AllTrailing(text: string)
  {
    forall c | c in text :: IsTrailing(c)
  }

  /** The line without its closing punctuation. */
  function Core(line: string): string
  {
    if line != "" && IsTrailing(line[|line| - 1]) then Core(line[..|line| - 1]) else line
  }

  /** What is left in front of the words that say that the instance is missing. */
  function NameRegion(core: string): string
  {
    if EndsWith(core, "not found") then TrimEnd(core[..|core| - 9])
    else if EndsWith(core, "does not exist") then TrimEnd(core[..|core| - 14])
    else core
  }

  /** The `length` characters at the end of a region, inside a closing quote when there is one. */
  function NameAtEnd(region: string, length: nat): string
  {
    var end := if region != "" && IsQuote(region[|region| - 1]) then |region| - 1 else |region|;
    if length <= end then region[end - length..end] else ""
  }

  lemma {:induction false} CoreDrops(text: string, trailing: string)
    requires AllTrailing(trailing) && text != "" && !IsTrailing(text[|text| - 1])
    ensures Core(text + trailing) == text
  {
    if trailing == "" {
      assert text + trailing == text;
    } else {
      var whole := text + trailing;
      assert whole[|whole| - 1] == trailing[|trailing| - 1];
      assert whole[..|whole| - 1] == text + trailing[..|trailing| - 1];
      CoreDrops(text, trailing[..|trailing| - 1]);
    }
  }

  lemma TailIsTrailing(r: Reading, form: Form)
    requires IsReading(r, form)
    ensures AllTrailing(r.tail) && AllTrailing(r.after)
  {
    if form.suffix != "" {
      var blank := TrimStartSplits(r.tail);
    }
  }

  /** The line up to the name, and the name, and the rest. */
  lemma Regroup(r: Reading, form: Form, name: string) returns (head: string)
    ensures Written(r, form, name) == (head + (r.quote + name + r.quote)) + Ending(r, form)
    ensures head == r.before + (form.prefix + (r.gap + (r.colon + r.space)))
  {
    var named, ending := r.quote + name + r.quote, Ending(r, form);
    ConcatAssociates(r.space, named, ending);
    ConcatAssociates(r.colon, r.space + named, ending);
    ConcatAssociates(r.gap, r.colon + (r.space + named), ending);
    ConcatAssociates(form.prefix, r.gap + (r.colon + (r.space + named)), ending);
    ConcatAssociates(r.before, form.prefix + (r.gap + (r.colon + (r.space + named))), ending);
    ConcatAssociates(r.colon, r.space, named);
    ConcatAssociates(r.gap, r.colon + r.space, named);
    ConcatAssociates(form.prefix, r.gap + (r.colon + r.space), named);
    ConcatAssociates(r.before, form.prefix + (r.gap + (r.colon + r.space)), named);
    head := r.before + (form.prefix + (r.gap + (r.colon + r.space)));
  }

  /** The region in front of the closing words ends with the name. */
  lemma RegionEnds(region: string, r: Reading, form: Form)
    requires IsReading(r, form) && IsKnownSuffix(form.suffix)
    requires region != "" && !IsTrailing(region[|region| - 1])
    requires form.suffix == "" ==> !EndsWith(region, "not found") && !EndsWith(region, "does not exist")
    ensures NameRegion(Core(region + Ending(r, form))) == region
  {
    hide Core; hide TrimEnd; hide IsReading; hide EndsWith;
    TailIsTrailing(r, form);
    AfterIsBlank(r, form);
    var suffix := form.suffix;
    if suffix == "" {
      assert suffix + r.tail == r.tail;
      CoreDrops(region, r.after + r.tail);
    } else {
      var core := region + r.after + suffix;
      ConcatAssociates(r.after, suffix, r.tail);
      ConcatAssociates(region, r.after + suffix, r.tail);
      ConcatAssociates(region, r.after, suffix);
      CoreDrops(core, r.tail);
      WordsAtEnd(region + r.after, suffix);
      TrimEndDrops(region, r.after);
    }
  }

  lemma AfterIsBlank(r: Reading, form: Form)
    requires IsReading(r, form)
    ensures AllWhitespace(r.after)
  {
  }

  lemma WordsAtEnd(text: string, suffix: string)
    requires IsKnownSuffix(suffix) && suffix != ""
    ensures NameRegion(text + suffix) == TrimEnd(text)
  {
    hide TrimEnd;
    var core := text + suffix;
    assert core[|core| - |suffix|..] == suffix && core[..|core| - |suffix|] == text;
    if suffix == "does not exist" {
      NotAWord(core, "not found", 1);
    }
  }

  lemma EndsAlike(text: string, end: string, k: nat)
    requires EndsWith(text, end) && 1 <= k <= |end|
    ensures text[|text| - k] == end[|end| - k]
  {
    assert text[|text| - |end|..][|end| - k] == text[|text| - k];
  }

  lemma NotAWord(region: string, words: string, k: nat)
    requires 1 <= k <= |region| && k <= |words| && region[|region| - k] != words[|words| - k]
    ensures !EndsWith(region, words)
  {
    if EndsWith(region, words) {
      EndsAlike(region, words, k);
    }
  }

  predicate IsGap(c: char)
  {
    IsWhitespace(c) || c == ':'
  }

  /** What precedes a name: a prefix, and then only whitespace and a colon. */
  predicate IsHead(head: string)
  {
    && |head| >= 2
    && var a, b := head[|head| - 2], head[|head| - 1];
       EndsLikePrefix(head) || (IsGap(b) && (IsGap(a) || a == 'r' || a == 'e'))
  }

  lemma HeadShape(r: Reading, form: Form)
    requires IsReading(r, form) && EndsLikePrefix(form.prefix)
    ensures IsHead(r.before + (form.prefix + (r.gap + (r.colon + r.space))))
  {
    var gap := r.gap + (r.colon + r.space);
    assert forall c | c in gap :: IsGap(c);
    GapAfterPrefix(r.before, form.prefix, gap);
  }

  lemma GapAfterPrefix(before: string, prefix: string, gap: string)
    requires EndsLikePrefix(prefix) && forall c | c in gap :: IsGap(c)
    ensures IsHead(before + (prefix + gap))
  {
    hide IsGap;
    var head := before + (prefix + gap);
    assert |gap| >= 1 ==> head[|head| - 1] == gap[|gap| - 1];
    assert |gap| >= 2 ==> head[|head| - 2] == gap[|gap| - 2];
    assert |gap| == 1 ==> head[|head| - 2] == prefix[|prefix| - 1];
    assert |gap| == 0 ==> head[|head| - 2] == prefix[|prefix| - 2] && head[|head| - 1] == prefix[|prefix| - 1];
  }

  lemma BareRegion(head: string, name: string)
    requires IsName(name) && IsHead(head)
    ensures var region := head + name;
      && !IsTrailing(region[|region| - 1])
      && !EndsWith(region, "not found") && !EndsWith(region, "does not exist")
      && NameAtEnd(region, |name|) == name
  {
    hide EndsWith;
    var region := head + name;
    assert region[|region| - |name|..] == name;
    assert name[|name| - 1] in name;
    NotTheWords(head, name);
  }

  /** A name after a head does not complete the closing words. */
  lemma NotTheWords(head: string, name: string)
    requires IsName(name) && IsHead(head)
    ensures !EndsWith(head + name, "not found") && !EndsWith(head + name, "does not exist")
  {
    hide EndsWith;
    var region := head + name;
    var n := |name|;
    assert region[|region| - n - 1] == head[|head| - 1] && region[|region| - n - 2] == head[|head| - 2];
    var words, other := "not found", "does not exist";
    if n >= 6 {
      assert region[|region| - 6] == name[n - 6] && name[n - 6] in name;
      NotAWord(region, words, 6);
      NotAWord(region, other, 6);
    } else if n == 5 {
      NotEither(region, words, 6);
      NotEither(region, other, 6);
    } else if n == 4 {
      NotAWord(region, words, 5);
      NotEither(region, other, 5);
    } else {
      NotAWord(region, words, n + 1);
      NotAWord(region, other, n + 1);
    }
  }

  /** One of two neighbouring characters differs. */
  lemma NotEither(region: string, words: string, k: nat)
    requires 1 <= k && k + 1 <= |region| && k + 1 <= |words|
    requires region[|region| - k] != words[|words| - k] || region[|region| - k - 1] != words[|words| - k - 1]
    ensures !EndsWith(region, words)
  {
    if EndsWith(region, words) {
      EndsAlike(region, words, k);
      EndsAlike(region, words, k + 1);
    }
  }

  lemma QuotedRegion(head: string, quote: char, name: string)
    requires IsQuote(quote)
    ensures var region := head + ([quote] + name + [quote]);
      && !IsTrailing(region[|region| - 1])
      && !EndsWith(region, "not found") && !EndsWith(region, "does not exist")
      && NameAtEnd(region, |name|) == name
  {
    hide EndsWith;
    var region := head + ([quote] + name + [quote]);
    assert region[|region| - 1] == quote;
    assert region[|region| - 1 - |name|..|region| - 1] == name;
    NotAWord(region, "not found", 1);
    NotAWord(region, "does not exist", 1);
  }

  lemma NamedRegion(head: string, quote: string, name: string)
    requires IsName(name) && IsHead(head) && (quote == "" || quote == "\"" || quote == "'")
    ensures var region := head + (quote + name + quote);
      && region != "" && !IsTrailing(region[|region| - 1])
      && !EndsWith(region, "not found") && !EndsWith(region, "does not exist")
      && NameAtEnd(region, |name|) == name
  {
    hide EndsWith; hide NameAtEnd; hide IsTrailing; hide IsHead;
    if quote == "" {
      assert quote + name + quote == name;
      BareRegion(head, name);
    } else {
      assert quote == [quote[0]];
      QuotedRegion(head, quote[0], name);
    }
  }

  lemma AcceptedName(line: string, name: string)
    requires IsName(name) && AbsenceLine(line, name)
    ensures name == NameAtEnd(NameRegion(Core(line)), |name|)
  {
    hide Core; hide NameRegion; hide NameAtEnd; hide AbsenceLine; hide IsReading; hide Written;
    AbsenceLineIsGrammar(line, name);
    FormsOk();
    var i, r :| 0 <= i < |FORMS| && Reads(line, FORMS[i], name, r);
    var form := FORMS[i];
    ReadingFacts(r, form);
    var head := Regroup(r, form, name);
    HeadShape(r, form);
    NamedRegion(head, r.quote, name);
    RegionEnds(head + (r.quote + name + r.quote), r, form);
  }

  lemma ReadingFacts(r: Reading, form: Form)
    requires IsReading(r, form)
    ensures r.quote == "" || r.quote == "\"" || r.quote == "'"
  {
  }

  /** No line proves the absence of two different instances whose names have one length. */
  lemma OneInstancePerLine(line: string, x: string, y: string)
    requires IsName(x) && IsName(y) && |x| == |y|
    requires AbsenceLine(line, x) && AbsenceLine(line, y)
    ensures x == y
  {
    AcceptedName(line, x);
    AcceptedName(line, y);
  }

  /**
   * The reading of a taken name has no such property. A report about one name
   * is one about every name it mentions anywhere, and so about every name
   * inside the reported one.
   */
  lemma ExistsReportNamesBoth(text: string, x: string, y: string)
    requires IsInstanceExistsReport(text, x)
    ensures IsInstanceExistsReport(text, y) <==> Contains(text, y)
    ensures Contains(x, y) ==> IsInstanceExistsReport(text, y)
  {
    if Contains(x, y) {
      ContainsInside(text, x, y);
    }
  }

  lemma ContainsInside(text: string, part: string, inner: string)
    requires Contains(text, part) && Contains(part, inner)
    ensures Contains(text, inner)
  {
    var i :| 0 <= i <= |text| && OccursAt(text, part, i);
    var j :| 0 <= j <= |part| && OccursAt(part, inner, j);
    SliceOfSlice(text, i, i + |part|, j, j + |inner|);
    assert OccursAt(text, inner, i + j);
  }

  /** For any two names there is such a text, whatever it says beside them. */
  lemma ExistsReportNamesMany(x: string, y: string, text: string)
    ensures var report := x + (" already exists" + (y + text));
      IsInstanceExistsReport(report, x) && IsInstanceExistsReport(report, y)
  {
    hide OccursAt;
    var said := " already exists";
    var report := x + (said + (y + text));
    assert "" + report == report;
    OccursInside("", x, said + (y + text));
    assert said == " " + "already exists";
    ConcatAssociates(" ", "already exists", y + text);
    ConcatAssociates(x, " ", "already exists" + (y + text));
    OccursInside(x + " ", "already exists", y + text);
    ConcatAssociates(x, said, y + text);
    OccursInside(x + said, y, text);
  }

  lemma OccursInside(before: string, part: string, after: string)
    ensures Contains(before + (part + after), part)
  {
    var text := before + (part + after);
    assert text[|before|..|before| + |part|] == part;
    assert OccursAt(text, part, |before|);
  }
}
