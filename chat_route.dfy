/** The chat endpoint (app/api/ai/chat/route.ts) and the `messages` table it
    appends to. One POST is a turn: store the user's message, read the profile
    and the history, ask the completion service, store and return its reply. */
module ChatRoute {
  import opened Common
  import opened Text
  import UserProfile

  datatype Role = User | Assistant | System

  /** A `messages` row; the table is kept in creation order, which is the order
      of `created_at`. */
  datatype MessageRow = MessageRow(userId: string, role: Role, content: string)

  /** `{ role, content }`: a history entry and an element of the list sent to
      the completion service. */
  datatype ChatEntry = ChatEntry(role: Role, content: string)

  /** What the completion call gives: the parsed body's
      `choices[0].message.content` (None when any step of that path is missing
      or null), or the error thrown by `fetch` or by `res.json()`. */
  datatype Completion = Completed(content: Option<string>) | Failed(message: string)

  /** What the turn's collaborators do: whether each insert into `messages`
      took effect (the code never looks at their errors), the profile lookup,
      the error of the history query if any, and the completion service. */
  datatype TurnEnv = TurnEnv(
    userInsertOk: bool,
    profile: Lookup<UserProfile.ProfileRow>,
    historyFault: Option<string>,
    complete: seq<ChatEntry> -> Completion,
    assistantInsertOk: bool)

  datatype ChatResponse = Reply(reply: string) | ErrorResponse(status: int, error: string)

  datatype TurnResult = TurnResult(rows: seq<MessageRow>, response: ChatResponse)

  const HistoryLimit := 100
  const MissingFields := "Mensagem ou usuário faltando"
  const InternalError := "Internal Error"
  const FallbackReply := "Desculpe, não consegui gerar uma resposta."
  const NotInformed := "não informado"
  const NoGoals := "nenhuma meta definida"
  /** `systemPromptBase`. */
  const BasePrompt := "Você é um coach pessoal que ajuda o usuário, focando em gerenciamento diário, planos de treino, estudo e etc.Mas pode ir ajudando o usuario conforme a necessidade dele"
  /** The last line of the personalised template. */
  const ClosingLine := "Seja empático e personalize as respostas com base nessas informações."

  // ---------------------------------------------------------------- the log

  /** The rows of user u, in table order. */
  function UserRows(rows: seq<MessageRow>, u: string): (r: seq<MessageRow>)
    ensures |r| <= |rows|
    ensures forall k :: 0 <= k < |r| ==> r[k].userId == u
  {
    if rows == [] then []
    else
      var last := rows[|rows| - 1];
      UserRows(rows[..|rows| - 1], u) + if last.userId == u then [last] else []
  }

  /** Filtering by user distributes over appending, so it keeps table order. */
  lemma {:induction false} UserRowsAppend(a: seq<MessageRow>, b: seq<MessageRow>, u: string)
    ensures UserRows(a + b, u) == UserRows(a, u) + UserRows(b, u)
    decreases |b|
  {
    if b == [] {
      assert a + b == a;
    } else {
      var b' := b[..|b| - 1];
      assert (a + b)[..|a + b| - 1] == a + b';
      UserRowsAppend(a, b', u);
    }
  }

  /** Every row of u is kept, and nothing else. */
  lemma {:induction false} UserRowsComplete(rows: seq<MessageRow>, u: string, x: MessageRow)
    ensures x in UserRows(rows, u) <==> x in rows && x.userId == u
    decreases |rows|
  {
    if rows != [] {
      UserRowsComplete(rows[..|rows| - 1], u, x);
      assert rows == rows[..|rows| - 1] + [rows[|rows| - 1]];
    }
  }

  function EntryOf(r: MessageRow): ChatEntry {
    ChatEntry(r.role, r.content)
  }

  function Min(a: int, b: int): int {
    if a <= b then a else b
  }

  /** The first n rows (all of them when there are fewer), as chat entries. */
  function FirstEntries(xs: seq<MessageRow>, n: nat): (h: seq<ChatEntry>)
    ensures |h| == Min(|xs|, n)
    ensures forall k :: 0 <= k < |h| ==> h[k] == EntryOf(xs[k])
  {
    seq(Min(|xs|, n), k requires 0 <= k < Min(|xs|, n) => EntryOf(xs[k]))
  }

  /** A row appended after the first n rows does not show; before, it shows last. */
  lemma FirstEntriesSnoc(xs: seq<MessageRow>, x: MessageRow, n: nat)
    ensures |xs| < n ==> FirstEntries(xs + [x], n) == FirstEntries(xs, n) + [EntryOf(x)]
    ensures |xs| >= n ==> FirstEntries(xs + [x], n) == FirstEntries(xs, n)
  {
    var a, b := FirstEntries(xs, n), FirstEntries(xs + [x], n);
    forall k | 0 <= k < |a|
      ensures b[k] == a[k]
    {
      assert (xs + [x])[k] == xs[k];
    }
    if |xs| < n {
      assert b[|xs|] == EntryOf((xs + [x])[|xs|]);
    }
  }

  /** The history query: `select('role, content').eq('user_id', u)
      .order('created_at', ascending).limit(100)`. It yields the OLDEST rows. */
  function Window(rows: seq<MessageRow>, u: string): (h: seq<ChatEntry>)
    ensures |h| == Min(|UserRows(rows, u)|, HistoryLimit)
    ensures forall k :: 0 <= k < |h| ==> h[k] == EntryOf(UserRows(rows, u)[k])
  {
    FirstEntries(UserRows(rows, u), HistoryLimit)
  }

  /** The message the turn has just stored reaches the window exactly when the
      user had fewer than 100 rows before: then it is the window's last entry;
      otherwise the window is what it was without it. */
  lemma NewMessageInWindow(rows: seq<MessageRow>, u: string, m: string)
    ensures var n := |UserRows(rows, u)|;
            var after := Window(rows + [MessageRow(u, User, m)], u);
            && (n < HistoryLimit ==> after == Window(rows, u) + [ChatEntry(User, m)])
            && (n >= HistoryLimit ==> after == Window(rows, u))
  {
    var row := MessageRow(u, User, m);
    UserRowsAppend(rows, [row], u);
    assert [row][..0] == [];
    assert UserRows([row], u) == [row];
    FirstEntriesSnoc(UserRows(rows, u), row, HistoryLimit);
  }

  /** Rows of other users never enter the window. */
  lemma WindowIgnoresOthers(rows: seq<MessageRow>, extra: seq<MessageRow>, u: string)
    requires forall k :: 0 <= k < |extra| ==> extra[k].userId != u
    ensures Window(rows + extra, u) == Window(rows, u)
  {
    UserRowsAppend(rows, extra, u);
    if UserRows(extra, u) != [] {
      var x := UserRows(extra, u)[0];
      UserRowsComplete(extra, u, x);
    }
  }

  /** A user's whole log, oldest first, when it fits under the limit. */
  lemma WindowIsWholeLogUnderLimit(rows: seq<MessageRow>, u: string)
    requires |UserRows(rows, u)| <= HistoryLimit
    ensures Window(rows, u) == seq(|UserRows(rows, u)|, k requires 0 <= k < |UserRows(rows, u)| => EntryOf(UserRows(rows, u)[k]))
  {
  }

  // ------------------------------------------------------ the system prompt

  /** `v ?? placeholder` inside the template literal. */
  function FieldText(v: Option<string>, placeholder: string): (r: string)
    ensures v.Some? ==> r == v.value
    ensures v.None? ==> r == placeholder
  {
    v.GetOr(placeholder)
  }

  /** `profile.is_student ? 'Sim' : 'Não'`: a truthiness test, so null and
      false both read "Não", and there is no placeholder. */
  function StudentText(b: Option<bool>): (r: string)
    ensures r == "Sim" <==> b == Some(true)
    ensures r == "Sim" || r == "Não"
  {
    if b == Some(true) then "Sim" else "Não"
  }

  /** `profile.preferences?.join(', ') ?? 'não informado'`. */
  function PreferencesText(p: Option<seq<string>>): (r: string)
    ensures p.None? ==> r == NotInformed
    ensures p == Some([]) ==> r == ""
    ensures p.Some? && |p.value| == 1 ==> r == p.value[0]
  {
    if p.Some? then Join(p.value, ", ") else NotInformed
  }

  /** The lines of the personalised prompt, in order. */
  function PromptLines(p: UserProfile.ProfileRow): (ls: seq<string>)
    ensures |ls| == 9 && ls[0] == BasePrompt && ls[1] == "Usuário:" && ls[8] == ClosingLine
  {
    [ BasePrompt,
      "Usuário:",
      "- Idade: " + FieldText(p.age, NotInformed),
      "- Peso: " + FieldText(p.weight, NotInformed),
      "- Sexo: " + FieldText(p.gender, NotInformed),
      "- Estuda: " + StudentText(p.isStudent),
      "- Preferências: " + PreferencesText(p.preferences),
      "- Metas: " + FieldText(p.goals, NoGoals),
      ClosingLine ]
  }

  /** A template line break followed by one more line. */
  function WithLine(text: string, line: string): string {
    text + "\n" + line
  }

  /** Lines written one below the other, as a multi-line template literal. */
  function Lines(ls: seq<string>): (r: string)
    requires |ls| >= 1
    ensures |ls[0]| <= |r| && r[..|ls[0]|] == ls[0]
    ensures |ls| > 1 ==> |ls[0]| < |r|
    decreases |ls|
  {
    if |ls| == 1 then ls[0] else WithLine(Lines(ls[..|ls| - 1]), ls[|ls| - 1])
  }

  /** `systemPrompt`: the base instruction alone without a profile, the
      template filled from the profile otherwise. */
  function SystemPrompt(profile: Option<UserProfile.ProfileRow>): (r: string)
    ensures profile.None? ==> r == BasePrompt
    ensures profile.Some? ==> |BasePrompt| < |r| && r[..|BasePrompt|] == BasePrompt
  {
    match profile
    case None => BasePrompt
    case Some(p) => Lines(PromptLines(p))
  }

  /** Where the first line break of `WithLine(text, line)` is, when text has one. */
  lemma FirstBreakInText(text: string, line: string)
    requires '\n' in text
    ensures var s, j := WithLine(text, line), IndexOf(text, '\n');
            IndexOf(s, '\n') == j && s[..j] == text[..j] && s[j + 1..] == WithLine(text[j + 1..], line)
  {
    var s, j := WithLine(text, line), IndexOf(text, '\n');
    assert s[j] == '\n' && s[..j] == text[..j];
    assert text == text[..j + 1] + text[j + 1..];
    assert s == text[..j + 1] + WithLine(text[j + 1..], line);
  }

  /** Where the first line break of `WithLine(text, line)` is, when text has none. */
  lemma FirstBreakAfterText(text: string, line: string)
    requires '\n' !in text
    ensures var s := WithLine(text, line);
            IndexOf(s, '\n') == |text| && s[..|text|] == text && s[|text| + 1..] == line
  {
    var s := WithLine(text, line);
    assert s[..|text|] == text;
    assert s[|text|] == '\n';
  }

  /** Splitting at a line break splits each side on its own. */
  lemma {:induction false} SplitWithLine(text: string, line: string)
    ensures Split(WithLine(text, line), '\n') == Split(text, '\n') + Split(line, '\n')
    decreases |text|
  {
    var s := WithLine(text, line);
    assert '\n' in s by {
      assert s[|text|] == '\n';
    }
    if '\n' in text {
      var j := IndexOf(text, '\n');
      FirstBreakInText(text, line);
      SplitWithLine(text[j + 1..], line);
      var head, tail, after := [text[..j]], Split(text[j + 1..], '\n'), Split(line, '\n');
      assert Split(s, '\n') == head + (tail + after);
      assert head + (tail + after) == (head + tail) + after;
    } else {
      FirstBreakAfterText(text, line);
    }
  }

  /** The six rendered profile fields. */
  function FieldTexts(p: UserProfile.ProfileRow): seq<string> {
    [FieldText(p.age, NotInformed), FieldText(p.weight, NotInformed), FieldText(p.gender, NotInformed),
     StudentText(p.isStudent), PreferencesText(p.preferences), FieldText(p.goals, NoGoals)]
  }

  /** The label lines hold a line break only where a rendered field does. */
  lemma FieldLinesUnbroken(p: UserProfile.ProfileRow)
    requires forall k :: 0 <= k < |FieldTexts(p)| ==> '\n' !in FieldTexts(p)[k]
    ensures forall k :: 1 <= k < 8 ==> '\n' !in PromptLines(p)[k]
  {
    var fs := FieldTexts(p);
    assert fs[0] == FieldText(p.age, NotInformed) && fs[1] == FieldText(p.weight, NotInformed);
    assert fs[2] == FieldText(p.gender, NotInformed) && fs[3] == StudentText(p.isStudent);
    assert fs[4] == PreferencesText(p.preferences) && fs[5] == FieldText(p.goals, NoGoals);
    Unbroken("- Idade: ", fs[0]);
    Unbroken("- Peso: ", fs[1]);
    Unbroken("- Sexo: ", fs[2]);
    Unbroken("- Estuda: ", fs[3]);
    Unbroken("- Preferências: ", fs[4]);
    Unbroken("- Metas: ", fs[5]);
    assert '\n' !in "Usuário:";
  }

  /** A label followed by a value holds no line break if neither does. */
  lemma Unbroken(tag: string, value: string)
    requires '\n' !in tag && '\n' !in value
    ensures '\n' !in tag + value
  {
  }

  /** How the sequence without its last element relates to the whole. */
  lemma FrontFacts<T>(ls: seq<T>)
    requires |ls| >= 3
    ensures var n, f := |ls|, ls[..|ls| - 1];
            && f[0] == ls[0] && f[n - 2] == ls[n - 2]
            && f[1..n - 2] == ls[1..n - 2]
            && ls[1..n - 1] == ls[1..n - 2] + [ls[n - 2]]
            && (forall k :: 1 <= k < n - 2 ==> f[k] == ls[k])
  {
    var n := |ls|;
    assert ls[1..n - 1] == ls[1..n - 2] + [ls[n - 2]];
  }

  lemma AppendAssoc<T>(a: seq<T>, b: seq<T>, c: seq<T>, d: seq<T>)
    ensures (a + b + c) + d == a + (b + c) + d
  {
  }

  /** Reading lines back: splitting the written lines at line breaks gives
      the first and last line's own pieces and every line in between as it
      was, provided those in between hold no line break of their own. */
  lemma {:induction false} SplitLines(ls: seq<string>)
    requires |ls| >= 2
    requires forall k :: 1 <= k < |ls| - 1 ==> '\n' !in ls[k]
    ensures Split(Lines(ls), '\n') == Split(ls[0], '\n') + ls[1..|ls| - 1] + Split(ls[|ls| - 1], '\n')
    decreases |ls|
  {
    var n := |ls|;
    var front := ls[..n - 1];
    assert Lines(ls) == WithLine(Lines(front), ls[n - 1]);
    SplitWithLine(Lines(front), ls[n - 1]);
    if n > 2 {
      FrontFacts(ls);
      SplitLines(front);
      var first, mid, last := Split(ls[0], '\n'), ls[1..n - 2], Split(ls[n - 1], '\n');
      assert Split(ls[n - 2], '\n') == [ls[n - 2]];
      assert Split(Lines(front), '\n') == first + mid + [ls[n - 2]];
      AppendAssoc(first, mid, [ls[n - 2]], last);
    } else {
      assert |front| == 1 && front[0] == ls[0];
      assert Lines(front) == ls[0];
      assert ls[1..n - 1] == [];
      assert Split(ls[0], '\n') + ls[1..n - 1] == Split(ls[0], '\n');
      assert Split(Lines(ls), '\n') == Split(ls[0], '\n') + Split(ls[n - 1], '\n');
    }
  }

  lemma Assoc<T>(x: seq<T>, y: seq<T>, z: seq<T>)
    ensures (x + y) + z == x + (y + z)
  {
  }

  /** The slices of `ls` that cutting after the k-th line relates. */
  lemma CutFacts<T>(ls: seq<T>, k: nat)
    requires 1 <= k < |ls| - 1
    ensures ls[..|ls| - 1][..k] == ls[..k]
    ensures ls[k..][..|ls| - k - 1] == ls[..|ls| - 1][k..]
    ensures ls[k..][|ls| - k - 1] == ls[|ls| - 1]
  {
  }

  /** Written lines cut after the k-th: the text of the first k lines, a
      line break, and the text of the rest. */
  lemma {:induction false} LinesAt(ls: seq<string>, k: nat)
    requires 1 <= k < |ls|
    ensures Lines(ls) == Lines(ls[..k]) + "\n" + Lines(ls[k..])
    decreases |ls|
  {
    var n := |ls|;
    var front := ls[..n - 1];
    if k == n - 1 {
      assert front == ls[..k];
      assert ls[k..] == [ls[n - 1]];
    } else {
      LinesAt(front, k);
      CutFacts(ls, k);
      var rest := ls[k..];
      var a, b, c := Lines(ls[..k]), Lines(front[k..]), ls[n - 1];
      assert Lines(ls) == a + "\n" + b + "\n" + c;
      assert Lines(rest) == b + "\n" + c;
      Assoc(a + "\n", b, "\n");
      Assoc(a + "\n", b + "\n", c);
    }
  }

  /** Every line but the first and the last stands between two line breaks,
      whatever it holds. */
  lemma LineBetweenBreaks(ls: seq<string>, k: nat)
    requires 1 <= k < |ls| - 1
    ensures Lines(ls) == Lines(ls[..k]) + "\n" + ls[k] + "\n" + Lines(ls[k + 1..])
  {
    LinesAt(ls, k);
    var rest := ls[k..];
    LinesAt(rest, 1);
    assert rest[..1] == [ls[k]];
    assert rest[1..] == ls[k + 1..];
    var a, b, c := Lines(ls[..k]), ls[k], Lines(ls[k + 1..]);
    assert Lines(rest) == b + "\n" + c;
    Assoc(a + "\n", b, "\n" + c);
    Assoc(a + "\n" + b, "\n", c);
  }

  /** For every profile, line breaks in its values included, the k-th line of
      the template (label and value) stands in the prompt between two line
      breaks, after the lines before it and before the ones after it. */
  lemma PromptPlacesLine(p: UserProfile.ProfileRow, k: nat)
    requires 1 <= k < 8
    ensures var ls := PromptLines(p);
            SystemPrompt(Some(p)) == Lines(ls[..k]) + "\n" + ls[k] + "\n" + Lines(ls[k + 1..])
  {
    LineBetweenBreaks(PromptLines(p), k);
  }

  /** The goals, multi-line ones included, stand verbatim after their label,
      just before the closing line that ends the prompt. */
  lemma PromptEndsWithGoals(p: UserProfile.ProfileRow)
    requires p.goals.Some?
    ensures var ls := PromptLines(p);
            && ls[7] == "- Metas: " + p.goals.value
            && SystemPrompt(Some(p)) == Lines(ls[..7]) + "\n" + ls[7] + "\n" + ClosingLine
  {
    var ls := PromptLines(p);
    LineBetweenBreaks(ls, 7);
    assert ls[8..] == [ClosingLine];
    assert Lines(ls[8..]) == ClosingLine;
  }

  /** The profile fields read back out of the prompt: when no rendered field
      holds a line break, the lines that follow the base instruction are
      "Usuário:" and then one line per field, label and value, before the
      closing line. So each present field appears verbatim after its label
      and each missing one as its placeholder. */
  lemma PromptShowsProfile(p: UserProfile.ProfileRow)
    requires forall k :: 0 <= k < |FieldTexts(p)| ==> '\n' !in FieldTexts(p)[k]
    ensures Split(SystemPrompt(Some(p)), '\n')
         == Split(BasePrompt, '\n') + PromptLines(p)[1..8] + Split(ClosingLine, '\n')
  {
    FieldLinesUnbroken(p);
    SplitLines(PromptLines(p));
  }

  /** `profile` is truthy only when the lookup returned a row; a lookup error is
      only logged. */
  function ProfileOf(l: Lookup<UserProfile.ProfileRow>): (p: Option<UserProfile.ProfileRow>)
    ensures p.Some? <==> l.Found?
    ensures l.Found? ==> p == Some(l.row)
  {
    if l.Found? then Some(l.row) else None
  }

  /** `messagesForAI`: one system entry carrying the prompt, then the history in order. */
  function MessagesForAI(prompt: string, history: seq<ChatEntry>): (r: seq<ChatEntry>)
    ensures |r| == |history| + 1
    ensures r[0] == ChatEntry(System, prompt)
    ensures r[1..] == history
  {
    [ChatEntry(System, prompt)] + history
  }

  /** `data.choices?.[0]?.message?.content ?? fallback`: only a missing or null
      content is replaced, so an empty reply stays empty. */
  function ReplyText(content: Option<string>): (r: string)
    ensures content.Some? ==> r == content.value
    ensures content.None? ==> r == FallbackReply
  {
    content.GetOr(FallbackReply)
  }

  /** The catch block: `error.message || 'Internal Error'`. */
  function ErrorText(message: string): (r: string)
    ensures r != ""
    ensures message != "" ==> r == message
    ensures message == "" ==> r == InternalError
  {
    if message != "" then message else InternalError
  }

  // ----------------------------------------------------------------- a turn

  /** The list sent to the completion service once the user's row is stored. */
  function Sent(logged: seq<MessageRow>, u: string, env: TurnEnv): (s: seq<ChatEntry>)
    ensures |s| == |Window(logged, u)| + 1 && s[1..] == Window(logged, u)
    ensures s[0] == ChatEntry(System, SystemPrompt(ProfileOf(env.profile)))
  {
    MessagesForAI(SystemPrompt(ProfileOf(env.profile)), Window(logged, u))
  }

  /** `after` is `before` with rows appended, every one of them u's. */
  predicate AddedBy(before: seq<MessageRow>, after: seq<MessageRow>, u: string) {
    && |before| <= |after| && after[..|before|] == before
    && forall k :: |before| <= k < |after| ==> after[k].userId == u
  }

  lemma AddedByTrans(a: seq<MessageRow>, b: seq<MessageRow>, c: seq<MessageRow>, u: string)
    requires AddedBy(a, b, u) && AddedBy(b, c, u)
    ensures AddedBy(a, c, u)
  {
    assert c[..|a|] == c[..|b|][..|a|];
    forall k | |a| <= k < |c|
      ensures c[k].userId == u
    {
      if k < |b| {
        assert c[k] == c[..|b|][k] == b[k];
      }
    }
  }

  /** Appending u's rows only. */
  lemma AddedByAppend(before: seq<MessageRow>, extra: seq<MessageRow>, u: string)
    requires forall k :: 0 <= k < |extra| ==> extra[k].userId == u
    ensures AddedBy(before, before + extra, u)
  {
    assert (before + extra)[..|before|] == before;
  }

  /** The rest of a turn once the completion service has answered `c`: a
      thrown error answers 500 and adds nothing, an answer adds at most the
      reply's row. */
  function Finish(logged: seq<MessageRow>, u: string, env: TurnEnv, c: Completion): (r: TurnResult)
    ensures |r.rows| <= |logged| + 1 && AddedBy(logged, r.rows, u)
    ensures c.Failed? ==> r.rows == logged
    ensures c.Completed? ==>
              r.rows == logged + (if env.assistantInsertOk then [MessageRow(u, Assistant, ReplyText(c.content))] else [])
              && r.response == Reply(ReplyText(c.content))
    ensures r.response.ErrorResponse? <==> c.Failed?
    ensures r.response.ErrorResponse? ==> r.response.status == 500 && r.response.error != ""
  {
    match c
    case Failed(e) =>
      AddedByAppend(logged, [], u);
      assert logged + [] == logged;
      TurnResult(logged, ErrorResponse(500, ErrorText(e)))
    case Completed(content) =>
      var reply := ReplyText(content);
      var extra := if env.assistantInsertOk then [MessageRow(u, Assistant, reply)] else [];
      AddedByAppend(logged, extra, u);
      TurnResult(logged + extra, Reply(reply))
  }

  /** One POST. The 400 check comes first and touches nothing; every later
      failure leaves the rows already stored in place, and every row it adds
      belongs to the requesting user. */
  function Turn(rows: seq<MessageRow>, message: Option<string>, userId: Option<string>, env: TurnEnv): (r: TurnResult)
    ensures !Present(message) || !Present(userId) ==> r == TurnResult(rows, ErrorResponse(400, MissingFields))
    ensures |r.rows| <= |rows| + 2
    ensures Present(message) && Present(userId) ==> AddedBy(rows, r.rows, userId.value)
    ensures r.response.ErrorResponse? ==> r.response.error != ""
  {
    if !Present(message) || !Present(userId) then TurnResult(rows, ErrorResponse(400, MissingFields))
    else
      var u, m := userId.value, message.value;
      var extra := if env.userInsertOk then [MessageRow(u, User, m)] else [];
      var logged := rows + extra;
      AddedByAppend(rows, extra, u);
      if env.historyFault.Some? then TurnResult(logged, ErrorResponse(500, ErrorText(env.historyFault.value)))
      else
        var r := Finish(logged, u, env, env.complete(Sent(logged, u, env)));
        AddedByTrans(rows, logged, r.rows, u);
        r
  }

  /** A turn whose collaborators all succeed stores exactly two rows, the user's
      message and then the reply it returns, and the reply is the service's
      answer to the system prompt followed by the window. */
  lemma SuccessfulTurn(rows: seq<MessageRow>, u: string, m: string, env: TurnEnv)
    requires u != "" && m != ""
    requires env.userInsertOk && env.assistantInsertOk && env.historyFault.None?
    requires env.complete(Sent(rows + [MessageRow(u, User, m)], u, env)).Completed?
    ensures var r := Turn(rows, Some(m), Some(u), env);
            var answer := env.complete(MessagesForAI(SystemPrompt(ProfileOf(env.profile)),
                                                     Window(rows + [MessageRow(u, User, m)], u)));
            && r.response == Reply(ReplyText(answer.content))
            && r.rows == rows + [MessageRow(u, User, m), MessageRow(u, Assistant, r.response.reply)]
  {
  }

  /** A thrown completion answers 500 with its message, and the user's row
      stored before the call stays stored. */
  lemma FailedCompletionKeepsUserRow(rows: seq<MessageRow>, u: string, m: string, env: TurnEnv)
    requires u != "" && m != "" && env.userInsertOk && env.historyFault.None?
    requires env.complete(Sent(rows + [MessageRow(u, User, m)], u, env)).Failed?
    ensures var r := Turn(rows, Some(m), Some(u), env);
            var e := env.complete(Sent(rows + [MessageRow(u, User, m)], u, env)).message;
            r.response == ErrorResponse(500, ErrorText(e)) && r.rows == rows + [MessageRow(u, User, m)]
  {
  }

  /** A failed history read answers 500 but the user's row stays stored. */
  lemma HistoryFaultKeepsUserRow(rows: seq<MessageRow>, u: string, m: string, env: TurnEnv)
    requires u != "" && m != "" && env.userInsertOk && env.historyFault.Some?
    ensures var r := Turn(rows, Some(m), Some(u), env);
            r.response.ErrorResponse? && r.response.status == 500
            && r.rows == rows + [MessageRow(u, User, m)]
  {
  }

  /** A failing profile lookup never aborts the turn: it behaves exactly as a
      user with no profile, whose prompt is the base instruction. */
  lemma ProfileErrorNeverAborts(rows: seq<MessageRow>, message: Option<string>, userId: Option<string>,
                                env: TurnEnv, e: string)
    ensures Turn(rows, message, userId, env.(profile := LookupError(e)))
         == Turn(rows, message, userId, env.(profile := NoRow))
    ensures SystemPrompt(ProfileOf(LookupError(e))) == BasePrompt
  {
    var e1, e2 := env.(profile := LookupError(e)), env.(profile := NoRow);
    assert ProfileOf(e1.profile) == ProfileOf(e2.profile);
    if Present(message) && Present(userId) {
      var u, m := userId.value, message.value;
      var logged := rows + if env.userInsertOk then [MessageRow(u, User, m)] else [];
      assert Sent(logged, u, e1) == Sent(logged, u, e2);
    }
  }

  /** A turn changes no other user's log. */
  lemma TurnKeepsOtherUsers(rows: seq<MessageRow>, message: Option<string>, userId: Option<string>,
                            env: TurnEnv, v: string)
    requires userId.Some? ==> v != userId.value
    ensures UserRows(Turn(rows, message, userId, env).rows, v) == UserRows(rows, v)
  {
    var r := Turn(rows, message, userId, env);
    var extra := r.rows[|rows|..];
    assert r.rows == rows + extra;
    UserRowsAppend(rows, extra, v);
    if UserRows(extra, v) != [] {
      var x := UserRows(extra, v)[0];
      UserRowsComplete(extra, v, x);
    }
  }

  // ------------------------------------------------------- clearing history

  /** The table after `delete().eq('user_id', u)`. */
  function WithoutUser(rows: seq<MessageRow>, u: string): (r: seq<MessageRow>)
    ensures |r| <= |rows|
    ensures forall k :: 0 <= k < |r| ==> r[k].userId != u
  {
    if rows == [] then []
    else
      var last := rows[|rows| - 1];
      WithoutUser(rows[..|rows| - 1], u) + if last.userId == u then [] else [last]
  }

  /** Clearing empties u's log, and so the next history read, and leaves
      every other user's log as it was. */
  lemma {:induction false} ClearAffectsOnlyUser(rows: seq<MessageRow>, u: string, v: string)
    ensures UserRows(WithoutUser(rows, u), u) == []
    ensures Window(WithoutUser(rows, u), u) == []
    ensures v != u ==> UserRows(WithoutUser(rows, u), v) == UserRows(rows, v)
    decreases |rows|
  {
    if rows != [] {
      var init, last := rows[..|rows| - 1], rows[|rows| - 1];
      ClearAffectsOnlyUser(init, u, v);
      var tail := if last.userId == u then [] else [last];
      UserRowsAppend(WithoutUser(init, u), tail, u);
      UserRowsAppend(WithoutUser(init, u), tail, v);
      assert UserRows([last], v) == UserRows([], v) + (if last.userId == v then [last] else []);
      assert UserRows([last], u) == UserRows([], u) + (if last.userId == u then [last] else []);
    }
  }

  class MessageLog {
    /** The `messages` table in creation order. */
    var rows: seq<MessageRow>

    constructor ()
      ensures rows == []
    {
      rows := [];
    }

    /** `POST`, step by step. */
    method Post(message: Option<string>, userId: Option<string>, env: TurnEnv) returns (resp: ChatResponse)
      modifies this
      ensures TurnResult(rows, resp) == Turn(old(rows), message, userId, env)
    {
      if !Present(message) || !Present(userId) {
        return ErrorResponse(400, MissingFields);
      }
      var u, m := userId.value, message.value;
      if env.userInsertOk {
        rows := rows + [MessageRow(u, User, m)];
      }
      var profile := ProfileOf(env.profile);
      if env.historyFault.Some? {
        return ErrorResponse(500, ErrorText(env.historyFault.value));
      }
      var history := Window(rows, u);
      var prompt := SystemPrompt(profile);
      var messagesForAI := MessagesForAI(prompt, history);
      ghost var logged := old(rows) + if env.userInsertOk then [MessageRow(u, User, m)] else [];
      assert rows == logged;
      assert messagesForAI == Sent(logged, u, env);
      var completion := env.complete(messagesForAI);
      if completion.Failed? {
        return ErrorResponse(500, ErrorText(completion.message));
      }
      var reply := ReplyText(completion.content);
      if env.assistantInsertOk {
        rows := rows + [MessageRow(u, Assistant, reply)];
      }
      resp := Reply(reply);
    }

    /** The delete the chat page issues when the user clears the history;
        `fault` is its database error, if any. */
    method DeleteUser(u: string, fault: Option<string>) returns (ok: bool)
      modifies this
      ensures ok <==> fault.None?
      ensures rows == if ok then WithoutUser(old(rows), u) else old(rows)
    {
      ok := fault.None?;
      if ok {
        rows := WithoutUser(rows, u);
      }
    }
  }
}
