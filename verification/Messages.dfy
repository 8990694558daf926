/** Chat messages as the bridge stores them in a role's prompt history. */
module Messages {

  /** A JSON value, as far as the bridge looks at one: its truthiness and its string. */
  datatype Json =
    | Null
    | Bool(b: bool)
    | Number(n: real)
    | Str(s: string)
    | Compound(empty: bool, text: string)

  type Fields = map<string, Json>

  /** `dict.get(key)`. */
  function Get(fields: Fields, key: string): Json {
    if key in fields then fields[key] else Null
  }

  /** Python truthiness. */
  predicate Truthy(j: Json) {
    match j
    case Null => false
    case Bool(b) => b
    case Number(n) => n != 0.0
    case Str(s) => s != ""
    case Compound(empty, _) => !empty
  }

  /** The content string, kept apart by the only distinctions the history code makes:
      plain text that is not JSON, a dumped JSON object, JSON that is no object (a list, a number,
      a string, null), and the two system notes that the history manager writes itself. */
  datatype Content =
    | Text(text: string)
    | Object(fields: Fields)
    | OtherJson(json: string)
    | TrimNote(messagesDropped: nat)
    | WaitNote(turnsCompacted: nat, latest: Fields)

  datatype Role = System | User | Assistant | Tool

  /** A call id: `Missing` when the key is absent or the string is empty. */
  datatype CallId = Missing | Id(name: string)

  datatype ToolCall = ToolCall(id: CallId, name: string, arguments: string)

  datatype Message = Message(role: Role, content: Content, calls: seq<ToolCall>, replyTo: CallId)

  /** A user message that trimming must not lose: any but a generated game-state prompt. */
  predicate IsImportantUser(m: Message) {
    m.role.User? && !(m.content.Text? && "[GAME STATE" <= m.content.text)
  }

  /** Important is every message of the user but a text that begins with the mark of a generated prompt. */
  lemma ImportantExactly(m: Message)
    ensures IsImportantUser(m) <==>
            && m.role == User
            && !(m.content.Text? && |m.content.text| >= 11 && m.content.text[..11] == "[GAME STATE")
  {
    if m.content.Text? && |m.content.text| >= 11 && m.content.text[..11] == "[GAME STATE" {
      assert m.content.text == "[GAME STATE" + m.content.text[11..];
    }
  }

  ghost predicate AllImportant(s: seq<Message>) {
    forall i :: 0 <= i < |s| ==> IsImportantUser(s[i])
  }

  function ImportantUsers(s: seq<Message>): seq<Message> {
    if s == [] then []
    else (if IsImportantUser(s[0]) then [s[0]] else []) + ImportantUsers(s[1..])
  }

  lemma {:induction false} ImportantUsersConcat(s: seq<Message>, t: seq<Message>)
    ensures ImportantUsers(s + t) == ImportantUsers(s) + ImportantUsers(t)
  {
    if s == [] {
      assert s + t == t;
    } else {
      assert (s + t)[1..] == s[1..] + t;
      ImportantUsersConcat(s[1..], t);
      JoinThree(if IsImportantUser(s[0]) then [s[0]] else [], ImportantUsers(s[1..]), ImportantUsers(t));
    }
  }

  /** The important user messages of a list, with their repetitions, and no others. */
  lemma {:induction false} ImportantUsersExactly(s: seq<Message>, m: Message)
    ensures multiset(ImportantUsers(s))[m] == if IsImportantUser(m) then multiset(s)[m] else 0
  {
    if s != [] {
      ImportantUsersExactly(s[1..], m);
      assert s == [s[0]] + s[1..];
    }
  }

  lemma JoinThree(a: seq<Message>, b: seq<Message>, c: seq<Message>)
    ensures a + (b + c) == a + b + c
  {
  }

  /** `a` is obtained from `b` by deleting messages, keeping the order. */
  predicate IsSubsequence(a: seq<Message>, b: seq<Message>) {
    if a == [] then true
    else if b == [] then false
    else if a[0] == b[0] then IsSubsequence(a[1..], b[1..])
    else IsSubsequence(a, b[1..])
  }

  lemma {:induction false} SubsequenceSkip(a: seq<Message>, b: seq<Message>)
    requires b != [] && IsSubsequence(a, b[1..])
    ensures IsSubsequence(a, b)
    decreases |b|, 0
  {
    if a != [] && a[0] == b[0] {
      SubsequenceTail(a, b[1..]);
    }
  }

  lemma {:induction false} SubsequenceTail(a: seq<Message>, b: seq<Message>)
    requires a != [] && IsSubsequence(a, b)
    ensures IsSubsequence(a[1..], b)
    decreases |b|, 1
  {
    if a[0] == b[0] {
      SubsequenceSkip(a[1..], b);
    } else {
      SubsequenceTail(a, b[1..]);
      SubsequenceSkip(a[1..], b);
    }
  }

  lemma {:induction false} SubsequenceRefl(a: seq<Message>)
    ensures IsSubsequence(a, a)
  {
    if a != [] {
      SubsequenceRefl(a[1..]);
    }
  }

  lemma {:induction false} SubsequenceConcat(a: seq<Message>, b: seq<Message>, c: seq<Message>, d: seq<Message>)
    requires IsSubsequence(a, b) && IsSubsequence(c, d)
    ensures IsSubsequence(a + c, b + d)
    decreases |b|
  {
    if b == [] {
      assert a + c == c && b + d == d;
    } else {
      assert (b + d)[1..] == b[1..] + d;
      if a == [] {
        SubsequenceConcat(a, b[1..], c, d);
        SubsequenceSkip(a + c, b + d);
      } else {
        assert (a + c)[1..] == a[1..] + c;
        if a[0] == b[0] {
          SubsequenceConcat(a[1..], b[1..], c, d);
        } else {
          SubsequenceConcat(a, b[1..], c, d);
        }
      }
    }
  }

  lemma {:induction false} ImportantUsersSubsequence(s: seq<Message>)
    ensures IsSubsequence(ImportantUsers(s), s)
    ensures ImportantUsers(ImportantUsers(s)) == ImportantUsers(s)
    ensures AllImportant(ImportantUsers(s))
    ensures |ImportantUsers(s)| <= |s|
  {
    if s != [] {
      ImportantUsersSubsequence(s[1..]);
      if IsImportantUser(s[0]) {
        assert ImportantUsers(s)[1..] == ImportantUsers(s[1..]);
      } else {
        assert ImportantUsers(s) == ImportantUsers(s[1..]);
        SubsequenceSkip(ImportantUsers(s), s);
      }
    }
  }
}
