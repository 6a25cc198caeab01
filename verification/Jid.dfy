/** WhatsApp identifiers and allowlist actions with their text forms
    (internal/domain/jid.go, internal/domain/action.go). */
module Jid {
  import opened Text

  datatype JID = JID(user: string, server: string)

  const USER := "s.whatsapp.net"
  const GROUP := "g.us"
  const LID := "lid"
  const HOSTED_LID := "hosted.lid"
  const HOSTED := "hosted"
  const BOT := "bot"
  const NEWSLETTER := "newsletter"

  predicate NumericServer(s: string) { s == USER || s == LID || s == HOSTED || s == HOSTED_LID || s == BOT }

  predicate GroupServer(s: string) { s == GROUP || s == NEWSLETTER }

  predicate GroupUserOK(u: string) {
    (forall c <- u :: IsDigit(c) || c == '-') && exists c <- u :: IsDigit(c)
  }

  /** parseJIDForm's verdict on a split input; broadcast and unknown servers fail. */
  predicate ValidForm(user: string, server: string) {
    user != "" && ((NumericServer(server) && AllDigits(user)) || (GroupServer(server) && GroupUserOK(user)))
  }

  function Digits(s: string): (d: string)
    ensures AllDigits(d)
    ensures AllDigits(s) ==> d == s
  {
    if s == "" then ""
    else if IsDigit(s[0]) then [s[0]] + Digits(s[1..])
    else Digits(s[1..])
  }

  /** domain.Parse: a JID form, or a phone number in any punctuation. */
  function Parse(input: string): Option<JID> {
    if input == "" then None
    else
      var i := IndexOf(input, '@');
      if i < |input| then
        var user, server := input[..i], input[i + 1..];
        if ValidForm(user, server) then Some(JID(user, server)) else None
      else
        var d := Digits(input);
        if 8 <= |d| <= 15 then Some(JID(d, USER)) else None
  }

  /** What Parse can return. */
  predicate Valid(j: JID) { ValidForm(j.user, j.server) }

  function ToString(j: JID): string { j.user + "@" + j.server }

  lemma ParsedIsValid(input: string)
    ensures Parse(input).Some? ==> Valid(Parse(input).value)
  {}

  /** Which identifier forms the parser takes, and as what. */
  lemma FormsExactly(user: string, server: string)
    requires '@' !in user
    ensures Parse(user + "@" + server) ==
      if && user != ""
         && ((server in {"s.whatsapp.net", "lid", "hosted.lid", "hosted", "bot"} && forall c <- user :: '0' <= c <= '9')
             || (server in {"g.us", "newsletter"}
                 && (forall c <- user :: '0' <= c <= '9' || c == '-') && exists c <- user :: '0' <= c <= '9'))
      then Some(JID(user, server)) else None
  {
    IndexOfSeparator(user, '@', server);
    var s := user + "@" + server;
    assert s[..|user|] == user && s[|user| + 1..] == server;
    assert user != "" ==> s != "";
    if exists c <- user :: '0' <= c <= '9' {
      var c :| c in user && '0' <= c <= '9';
      assert IsDigit(c);
    }
  }

  lemma {:induction false} DigitsConcat(a: string, b: string)
    ensures Digits(a + b) == Digits(a) + Digits(b)
  {
    if a == "" {
      assert a + b == b;
    } else {
      DigitsConcat(a[1..], b);
      assert (a + b)[0] == a[0] && (a + b)[1..] == a[1..] + b;
      if IsDigit(a[0]) {
        Associative([a[0]], Digits(a[1..]), Digits(b));
      }
    }
  }

  lemma DigitsOne(c: char)
    ensures Digits([c]) == if '0' <= c <= '9' then [c] else ""
  {
    assert [c][1..] == "";
  }

  /** What is not an identifier form is a phone number: its digits, in order and with
      whatever is between them left out, name a user of the default server. */
  lemma PhonesExactly(input: string, c: char)
    requires '@' !in input
    ensures Parse(input) == if 8 <= |Digits(input)| <= 15 then Some(JID(Digits(input), "s.whatsapp.net")) else None
    ensures Digits("") == "" && Digits(input + [c]) == Digits(input) + if '0' <= c <= '9' then [c] else ""
  {
    DigitsConcat(input, [c]);
    DigitsOne(c);
  }

  lemma UserHasNoAt(j: JID)
    requires Valid(j)
    ensures '@' !in j.user
  {}

  /** The canonical form parses back to the same identifier. */
  lemma JidRoundTrip(j: JID)
    requires Valid(j)
    ensures Parse(ToString(j)) == Some(j)
  {
    UserHasNoAt(j);
    IndexOfSeparator(j.user, '@', j.server);
    var s := ToString(j);
    assert s[..|j.user|] == j.user && s[|j.user| + 1..] == j.server;
  }

  /** Its characters are those an envelope attribute can carry unescaped. */
  lemma JidIsPlain(j: JID)
    requires Valid(j)
    ensures forall c <- ToString(j) :: 'a' <= c <= 'z' || IsDigit(c) || c in {'-', '.', '@'}
  {
    ServerIsPlain(j.server);
  }

  lemma ServerIsPlain(s: string)
    requires NumericServer(s) || GroupServer(s)
    ensures forall c <- s :: 'a' <= c <= 'z' || c == '.'
  {}

  datatype Action =
    | Read | Send | GroupAdd | GroupCreate | Revoke | Edit | Block | GroupRemove | GroupPromote | GroupDemote
    | GroupLeave | GroupEdit | GroupInvite | PrivacySet | ProfileEdit | LogoutAll | Presence | ChatState | Logout

  function ActionText(a: Action): string {
    match a
    case Read => "read"
    case Send => "send"
    case GroupAdd => "group.add"
    case GroupCreate => "group.create"
    case Revoke => "revoke"
    case Edit => "edit"
    case Block => "block"
    case GroupRemove => "group.remove"
    case GroupPromote => "group.promote"
    case GroupDemote => "group.demote"
    case GroupLeave => "group.leave"
    case GroupEdit => "group.edit"
    case GroupInvite => "group.invite"
    case PrivacySet => "privacy.set"
    case ProfileEdit => "profile.edit"
    case LogoutAll => "logout.all"
    case Presence => "presence"
    case ChatState => "chat.state"
    case Logout => "logout"
  }

  const ALL_ACTIONS: seq<Action> := [
    Read, Send, GroupAdd, GroupCreate, Revoke, Edit, Block, GroupRemove, GroupPromote, GroupDemote,
    GroupLeave, GroupEdit, GroupInvite, PrivacySet, ProfileEdit, LogoutAll, Presence, ChatState, Logout]

  function FindAction(s: string, actions: seq<Action>): Option<Action> {
    if actions == [] then None
    else if ActionText(actions[0]) == s then Some(actions[0])
    else FindAction(s, actions[1..])
  }

  /** domain.ParseAction */
  function ParseAction(s: string): Option<Action> { FindAction(s, ALL_ACTIONS) }

  lemma ActionTextInjective(a: Action, b: Action)
    requires ActionText(a) == ActionText(b)
    ensures a == b
  {
    var s, t := ActionText(a), ActionText(b);
    assert s[0] == t[0] && s[|s| - 1] == t[|t| - 1] && (|s| > 6 ==> s[6] == t[6]);
  }

  lemma {:induction false} FindActionFinds(a: Action, actions: seq<Action>)
    requires a in actions
    ensures FindAction(ActionText(a), actions) == Some(a)
  {
    if ActionText(actions[0]) == ActionText(a) {
      ActionTextInjective(actions[0], a);
    } else {
      FindActionFinds(a, actions[1..]);
    }
  }

  lemma AllListed(a: Action)
    ensures a in ALL_ACTIONS
  {
    assert ALL_ACTIONS[0] == Read && ALL_ACTIONS[1] == Send && ALL_ACTIONS[2] == GroupAdd && ALL_ACTIONS[3] == GroupCreate;
    assert ALL_ACTIONS[4] == Revoke && ALL_ACTIONS[5] == Edit && ALL_ACTIONS[6] == Block && ALL_ACTIONS[7] == GroupRemove;
    assert ALL_ACTIONS[8] == GroupPromote && ALL_ACTIONS[9] == GroupDemote && ALL_ACTIONS[10] == GroupLeave;
    assert ALL_ACTIONS[11] == GroupEdit && ALL_ACTIONS[12] == GroupInvite && ALL_ACTIONS[13] == PrivacySet;
    assert ALL_ACTIONS[14] == ProfileEdit && ALL_ACTIONS[15] == LogoutAll && ALL_ACTIONS[16] == Presence;
    assert ALL_ACTIONS[17] == ChatState && ALL_ACTIONS[18] == Logout;
  }

  /** The words of the rule file and of the requests. */
  lemma ActionWords()
    ensures ParseAction("read") == Some(Read) && ParseAction("send") == Some(Send)
    ensures ParseAction("group.add") == Some(GroupAdd) && ParseAction("group.create") == Some(GroupCreate)
    ensures ParseAction("revoke") == Some(Revoke) && ParseAction("edit") == Some(Edit) && ParseAction("block") == Some(Block)
    ensures ParseAction("group.remove") == Some(GroupRemove) && ParseAction("group.promote") == Some(GroupPromote)
    ensures ParseAction("group.demote") == Some(GroupDemote) && ParseAction("group.leave") == Some(GroupLeave)
    ensures ParseAction("group.edit") == Some(GroupEdit) && ParseAction("group.invite") == Some(GroupInvite)
    ensures ParseAction("privacy.set") == Some(PrivacySet) && ParseAction("profile.edit") == Some(ProfileEdit)
    ensures ParseAction("logout.all") == Some(LogoutAll) && ParseAction("presence") == Some(Presence)
    ensures ParseAction("chat.state") == Some(ChatState) && ParseAction("logout") == Some(Logout)
  {
    forall a: Action
      ensures ParseAction(ActionText(a)) == Some(a)
    {
      ActionRoundTrip(a);
    }
    assert ActionText(Read) == "read" && ActionText(Send) == "send" && ActionText(GroupAdd) == "group.add";
    assert ActionText(GroupCreate) == "group.create" && ActionText(Revoke) == "revoke" && ActionText(Edit) == "edit";
    assert ActionText(Block) == "block" && ActionText(GroupRemove) == "group.remove" && ActionText(GroupPromote) == "group.promote";
    assert ActionText(GroupDemote) == "group.demote" && ActionText(GroupLeave) == "group.leave" && ActionText(GroupEdit) == "group.edit";
    assert ActionText(GroupInvite) == "group.invite" && ActionText(PrivacySet) == "privacy.set";
    assert ActionText(ProfileEdit) == "profile.edit" && ActionText(LogoutAll) == "logout.all" && ActionText(Presence) == "presence";
    assert ActionText(ChatState) == "chat.state" && ActionText(Logout) == "logout";
  }

  /** What parses is the name of what comes out. */
  lemma {:induction false} ParsedActionNamed(s: string, actions: seq<Action>)
    ensures FindAction(s, actions).Some? ==> ActionText(FindAction(s, actions).value) == s
  {
    if actions != [] && ActionText(actions[0]) != s {
      ParsedActionNamed(s, actions[1..]);
    }
  }

  lemma ActionRoundTrip(a: Action)
    ensures ParseAction(ActionText(a)) == Some(a)
  {
    AllListed(a);
    FindActionFinds(a, ALL_ACTIONS);
  }
}
