/** The `<channel source="wa">` envelope around text other people wrote: the
    printer (internal/app/channelwrap.go, internal/app/channelwrap_fields.go) and a
    left-to-right parser that undoes it. */
module ChannelEnvelope {
  import opened Text
  import Jid

  /* ----- escaping ----- */

  function CleanChar(c: char): char {
    if c == '\t' || c == '\n' || c == '\r' then c
    else if c <= '\U{1F}' then '\U{FFFD}'
    else c
  }

  /** Control characters replaced. */
  function Clean(s: string): (r: string)
    ensures |r| == |s|
  {
    seq(|s|, i requires 0 <= i < |s| => CleanChar(s[i]))
  }

  function Subst(c: char, rep: string): char -> string { x => if x == c then rep else [x] }

  /** strings.ReplaceAll for a one-character pattern. */
  function ReplaceAll(s: string, c: char, rep: string): string { FlatMap(Subst(c, rep), s) }

  const AMP := "&amp;"
  const LT := "&lt;"
  const GT := "&gt;"

  /** escapeChannelBody: one pass over the controls, then three replacements. */
  function EscapeBody(s: string): string {
    ReplaceAll(ReplaceAll(ReplaceAll(Clean(s), '&', AMP), '<', LT), '>', GT)
  }

  function Entity(c: char): string {
    if c == '&' then AMP else if c == '<' then LT else if c == '>' then GT else [c]
  }

  /** The same escaping in a single pass. */
  function OnePass(s: string): string { FlatMap(Entity, s) }

  lemma {:induction false} FlatMapConcat<A>(f: A -> string, a: seq<A>, b: seq<A>)
    ensures FlatMap(f, a + b) == FlatMap(f, a) + FlatMap(f, b)
  {
    if a == [] {
      assert a + b == b;
    } else {
      FlatMapConcat(f, a[1..], b);
      Associative(f(a[0]), FlatMap(f, a[1..]), FlatMap(f, b));
      assert (a + b)[0] == a[0] && (a + b)[1..] == a[1..] + b;
    }
  }

  /** Replacing inside one replaced character. */
  lemma EntitySteps(c: char)
    ensures ReplaceAll(ReplaceAll(ReplaceAll([c], '&', AMP), '<', LT), '>', GT) == Entity(c)
  {
    var a, b, d := Subst('&', AMP), Subst('<', LT), Subst('>', GT);
    SingleFlatMap(a, c);
    if c == '&' {
      Untouched(AMP, '<', LT);
      Untouched(AMP, '>', GT);
    } else {
      SingleFlatMap(b, c);
      if c == '<' {
        Untouched(LT, '>', GT);
      } else {
        SingleFlatMap(d, c);
      }
    }
  }

  lemma SingleFlatMap(f: char -> string, c: char)
    ensures FlatMap(f, [c]) == f(c)
  {
    assert [c][1..] == [];
    assert FlatMap(f, [c][1..]) == "";
  }

  lemma {:induction false} Untouched(s: string, c: char, rep: string)
    requires c !in s
    ensures ReplaceAll(s, c, rep) == s
  {
    if s != "" {
      Untouched(s[1..], c, rep);
      assert s == [s[0]] + s[1..];
    }
  }

  /** The sequential replacements never touch each other's output. */
  lemma {:induction false} SequentialIsOnePass(s: string)
    ensures ReplaceAll(ReplaceAll(ReplaceAll(s, '&', AMP), '<', LT), '>', GT) == OnePass(s)
  {
    if s != "" {
      var a, b, d := Subst('&', AMP), Subst('<', LT), Subst('>', GT);
      var h, t := [s[0]], s[1..];
      assert s == h + t;
      SequentialIsOnePass(t);
      EntitySteps(s[0]);
      FlatMapConcat(a, h, t);
      FlatMapConcat(b, FlatMap(a, h), FlatMap(a, t));
      FlatMapConcat(d, FlatMap(b, FlatMap(a, h)), FlatMap(b, FlatMap(a, t)));
    }
  }

  lemma {:induction false} OnePassHasNoAngle(s: string)
    ensures '<' !in OnePass(s) && '>' !in OnePass(s)
  {
    if s != "" {
      OnePassHasNoAngle(s[1..]);
    }
  }

  /** Reads escaped text back; a bare ampersand is malformed. */
  function Unescape(s: string): Option<string> {
    if s == "" then Some("")
    else if AMP <= s then Prepend('&', Unescape(s[|AMP|..]))
    else if LT <= s then Prepend('<', Unescape(s[|LT|..]))
    else if GT <= s then Prepend('>', Unescape(s[|GT|..]))
    else if s[0] == '&' then None
    else Prepend(s[0], Unescape(s[1..]))
  }

  function Prepend(c: char, r: Option<string>): Option<string> {
    match r case Some(s) => Some([c] + s) case None => None
  }

  lemma UnescapeEntity(c: char, rest: string)
    ensures Unescape(Entity(c) + rest) == Prepend(c, Unescape(rest))
  {
    var e := Entity(c);
    var s := e + rest;
    assert s[|e|..] == rest;
    assert s[0] == e[0];
    if c == '<' || c == '>' {
      assert s[1] == e[1];
    }
  }

  lemma {:induction false} UnescapeOnePass(s: string)
    ensures Unescape(OnePass(s)) == Some(s)
  {
    if s != "" {
      UnescapeOnePass(s[1..]);
      UnescapeEntity(s[0], OnePass(s[1..]));
      assert s == [s[0]] + s[1..];
    }
  }

  /** A control character other than tab, newline and carriage return. */
  predicate IsControl(c: char) { c < ' ' && c != '\t' && c != '\n' && c != '\r' }

  /** `r` is `s`, character by character, with U+FFFD in place of each control character. */
  ghost predicate Cleaned(s: string, r: string) {
    |r| == |s| && forall i | 0 <= i < |s| :: r[i] == if IsControl(s[i]) then '\U{FFFD}' else s[i]
  }

  lemma CleanMeans(s: string)
    ensures Cleaned(s, Clean(s))
    ensures (forall c <- s :: !IsControl(c)) ==> Clean(s) == s
  {}

  /** Unescaping gives back the text itself but for its control characters. */
  lemma EscapeRoundTrip(s: string)
    ensures Unescape(EscapeBody(s)) == Some(Clean(s)) && Cleaned(s, Clean(s))
    ensures (forall c <- s :: !IsControl(c)) ==> Unescape(EscapeBody(s)) == Some(s)
    ensures '<' !in EscapeBody(s) && '>' !in EscapeBody(s)
  {
    CleanMeans(s);
    SequentialIsOnePass(Clean(s));
    UnescapeOnePass(Clean(s));
    OnePassHasNoAngle(Clean(s));
  }

  /** What is written for each character. */
  lemma EscapeCharacters(s: string, c: char)
    ensures EscapeBody("") == ""
    ensures EscapeBody(s + [c]) == EscapeBody(s)
      + if c == '&' then "&amp;" else if c == '<' then "&lt;" else if c == '>' then "&gt;"
        else if IsControl(c) then "\U{FFFD}" else [c]
  {
    SequentialIsOnePass(Clean(s));
    SequentialIsOnePass(Clean(s + [c]));
    SequentialIsOnePass(Clean(""));
    assert Clean(s + [c]) == Clean(s) + [CleanChar(c)];
    FlatMapConcat(Entity, Clean(s), [CleanChar(c)]);
    SingleFlatMap(Entity, CleanChar(c));
  }

  /* ----- fields ----- */

  datatype FieldName =
    | Body | Caption | PushName | GroupSubject | GroupDescription | PollQuestion | PollOption
    | ContactName | ContactOrg | LocationName | LocationAddress | QuotePreview

  /** The wire name of a field. */
  function NameText(n: FieldName): string {
    match n
    case Body => "body"
    case Caption => "caption"
    case PushName => "push_name"
    case GroupSubject => "group_subject"
    case GroupDescription => "group_description"
    case PollQuestion => "poll_question"
    case PollOption => "poll_option"
    case ContactName => "contact_name"
    case ContactOrg => "contact_organization"
    case LocationName => "location_name"
    case LocationAddress => "location_address"
    case QuotePreview => "quote_preview"
  }

  const ALL_NAMES: seq<FieldName> := [
    Body, Caption, PushName, GroupSubject, GroupDescription, PollQuestion, PollOption,
    ContactName, ContactOrg, LocationName, LocationAddress, QuotePreview]

  /** The position of a field in the envelope. */
  function Rank(n: FieldName): nat {
    match n
    case Body => 0
    case Caption => 1
    case PushName => 2
    case GroupSubject => 3
    case GroupDescription => 4
    case PollQuestion => 5
    case PollOption => 6
    case ContactName => 7
    case ContactOrg => 8
    case LocationName => 9
    case LocationAddress => 10
    case QuotePreview => 11
  }

  function FindName(s: string, names: seq<FieldName>): Option<FieldName> {
    if names == [] then None
    else if NameText(names[0]) == s then Some(names[0])
    else FindName(s, names[1..])
  }

  function ParseName(s: string): Option<FieldName> { FindName(s, ALL_NAMES) }

  predicate IsNameChar(c: char) { 'a' <= c <= 'z' || c == '_' }

  lemma NamesArePlain(n: FieldName)
    ensures forall c <- NameText(n) :: IsNameChar(c)
  {}

  /** No two fields share a wire name. */
  lemma NameTextInjective(m: FieldName, n: FieldName)
    requires NameText(m) == NameText(n)
    ensures m == n
  {
    var s := NameText(m);
    if |s| == 13 {
      assert s[0] == NameText(n)[0];
    }
  }

  lemma {:induction false} FindNameFinds(n: FieldName, names: seq<FieldName>)
    requires n in names
    ensures FindName(NameText(n), names) == Some(n)
  {
    if NameText(names[0]) == NameText(n) {
      NameTextInjective(names[0], n);
    } else {
      FindNameFinds(n, names[1..]);
    }
  }

  lemma ParseNameRoundTrip(n: FieldName)
    ensures ParseName(NameText(n)) == Some(n)
  {
    assert ALL_NAMES[Rank(n)] == n;
    FindNameFinds(n, ALL_NAMES);
  }

  /** The attacker-controllable strings of one inbound event. */
  datatype InboundFields = InboundFields(
    body: string, caption: string, pushName: string, groupSubject: string, groupDescription: string,
    pollQuestion: string, pollOptions: seq<string>,
    contactName: string, contactOrg: string, locationName: string, locationAddress: string, quotePreview: string)

  function CleanFields(f: InboundFields): InboundFields {
    InboundFields(
      Clean(f.body), Clean(f.caption), Clean(f.pushName), Clean(f.groupSubject), Clean(f.groupDescription),
      Clean(f.pollQuestion), seq(|f.pollOptions|, i requires 0 <= i < |f.pollOptions| => Clean(f.pollOptions[i])),
      Clean(f.contactName), Clean(f.contactOrg), Clean(f.locationName), Clean(f.locationAddress), Clean(f.quotePreview))
  }

  /** Field by field, the texts of `f` but for their control characters. */
  ghost predicate FieldsCleaned(f: InboundFields, g: InboundFields) {
    && Cleaned(f.body, g.body) && Cleaned(f.caption, g.caption) && Cleaned(f.pushName, g.pushName)
    && Cleaned(f.groupSubject, g.groupSubject) && Cleaned(f.groupDescription, g.groupDescription)
    && Cleaned(f.pollQuestion, g.pollQuestion) && |g.pollOptions| == |f.pollOptions|
    && (forall i | 0 <= i < |f.pollOptions| :: Cleaned(f.pollOptions[i], g.pollOptions[i]))
    && Cleaned(f.contactName, g.contactName) && Cleaned(f.contactOrg, g.contactOrg)
    && Cleaned(f.locationName, g.locationName) && Cleaned(f.locationAddress, g.locationAddress)
    && Cleaned(f.quotePreview, g.quotePreview)
  }

  lemma CleanFieldsMeans(f: InboundFields)
    ensures FieldsCleaned(f, CleanFields(f))
  {
    CleanMeans(f.body);
    CleanMeans(f.caption);
    CleanMeans(f.pushName);
    CleanMeans(f.groupSubject);
    CleanMeans(f.groupDescription);
    CleanMeans(f.pollQuestion);
    forall i | 0 <= i < |f.pollOptions|
      ensures Cleaned(f.pollOptions[i], CleanFields(f).pollOptions[i])
    {
      CleanMeans(f.pollOptions[i]);
    }
    CleanMeans(f.contactName);
    CleanMeans(f.contactOrg);
    CleanMeans(f.locationName);
    CleanMeans(f.locationAddress);
    CleanMeans(f.quotePreview);
  }

  /** One `<field>` child. */
  datatype Field = Field(name: FieldName, index: Option<nat>, value: string)

  type Slot = (FieldName, string)

  /** Non-empty values become children; empty ones are omitted. */
  function Emit(slots: seq<Slot>, rest: seq<Field>): seq<Field> {
    if slots == [] then rest
    else
      var more := Emit(slots[1..], rest);
      if slots[0].1 == "" then more else [Field(slots[0].0, None, slots[0].1)] + more
  }

  /** Poll options carry their index and are never omitted. */
  function Polls(options: seq<string>, i: nat): seq<Field>
    requires i <= |options|
    decreases |options| - i
  {
    if i == |options| then [] else [Field(PollOption, Some(i), options[i])] + Polls(options, i + 1)
  }

  function Leading(f: InboundFields): seq<Slot> {
    [(Body, f.body), (Caption, f.caption), (PushName, f.pushName), (GroupSubject, f.groupSubject),
     (GroupDescription, f.groupDescription), (PollQuestion, f.pollQuestion)]
  }

  function Trailing(f: InboundFields): seq<Slot> {
    [(ContactName, f.contactName), (ContactOrg, f.contactOrg), (LocationName, f.locationName),
     (LocationAddress, f.locationAddress), (QuotePreview, f.quotePreview)]
  }

  /** The children of an envelope, in order. */
  function FieldsOf(f: InboundFields): seq<Field> {
    Emit(Leading(f), Polls(f.pollOptions, 0) + Emit(Trailing(f), []))
  }

  /** Reads the named optional fields off the front, in order. */
  function Take(names: seq<FieldName>, fs: seq<Field>): (r: (seq<string>, seq<Field>))
    ensures |r.0| == |names|
  {
    if names == [] then ([], fs)
    else if fs != [] && fs[0].name == names[0] && fs[0].index == None && fs[0].value != "" then
      var (values, rest) := Take(names[1..], fs[1..]);
      ([fs[0].value] + values, rest)
    else
      var (values, rest) := Take(names[1..], fs);
      ([""] + values, rest)
  }

  /** Reads the poll options, whose indices must count up from `i`. */
  function TakePolls(fs: seq<Field>, i: nat): (seq<string>, seq<Field>) {
    if fs != [] && fs[0].name == PollOption && fs[0].index == Some(i) then
      var (options, rest) := TakePolls(fs[1..], i + 1);
      ([fs[0].value] + options, rest)
    else ([], fs)
  }

  const LEADING: seq<FieldName> := [Body, Caption, PushName, GroupSubject, GroupDescription, PollQuestion]
  const TRAILING: seq<FieldName> := [ContactName, ContactOrg, LocationName, LocationAddress, QuotePreview]

  function Collect(fs: seq<Field>): Option<InboundFields> {
    var (lead, fs1) := Take(LEADING, fs);
    var (options, fs2) := TakePolls(fs1, 0);
    var (trail, fs3) := Take(TRAILING, fs2);
    if fs3 != [] then None
    else Some(InboundFields(lead[0], lead[1], lead[2], lead[3], lead[4], lead[5], options,
                            trail[0], trail[1], trail[2], trail[3], trail[4]))
  }

  /** Every field of `fs` comes after position `r`. */
  predicate Above(fs: seq<Field>, r: nat) { forall x <- fs :: Rank(x.name) > r }

  function Names(slots: seq<Slot>): seq<FieldName> {
    seq(|slots|, i requires 0 <= i < |slots| => slots[i].0)
  }

  function Values(slots: seq<Slot>): seq<string> {
    seq(|slots|, i requires 0 <= i < |slots| => slots[i].1)
  }

  predicate Increasing(slots: seq<Slot>) {
    forall i, j | 0 <= i < j < |slots| :: Rank(slots[i].0) < Rank(slots[j].0)
  }

  lemma {:induction false} EmitAbove(slots: seq<Slot>, rest: seq<Field>, r: nat)
    requires (forall s <- slots :: r < Rank(s.0)) && Above(rest, r)
    ensures Above(Emit(slots, rest), r)
  {
    if slots != [] {
      EmitAbove(slots[1..], rest, r);
    }
  }

  lemma {:induction false} TakeEmit(slots: seq<Slot>, rest: seq<Field>)
    requires Increasing(slots) && forall s <- slots :: Above(rest, Rank(s.0))
    ensures Take(Names(slots), Emit(slots, rest)) == (Values(slots), rest)
  {
    if slots != [] {
      var more := Emit(slots[1..], rest);
      TakeEmit(slots[1..], rest);
      assert Names(slots)[1..] == Names(slots[1..]);
      assert Values(slots) == [slots[0].1] + Values(slots[1..]);
      EmitAbove(slots[1..], rest, Rank(slots[0].0));
      assert more != [] ==> more[0] in more;
      assert slots[0].1 != "" ==> Emit(slots, rest)[1..] == more;
    } else {
      assert Names(slots) == [] && Values(slots) == [];
    }
  }

  lemma {:induction false} TakePollsBack(options: seq<string>, i: nat, rest: seq<Field>)
    requires i <= |options| && Above(rest, Rank(PollOption))
    ensures TakePolls(Polls(options, i) + rest, i) == (options[i..], rest)
    decreases |options| - i
  {
    var fs := Polls(options, i) + rest;
    if i == |options| {
      assert fs == rest && options[i..] == [];
      assert rest != [] ==> rest[0] in rest;
    } else {
      TakePollsBack(options, i + 1, rest);
      assert fs[1..] == Polls(options, i + 1) + rest;
      assert options[i..] == [options[i]] + options[i + 1..];
    }
  }

  lemma {:induction false} PollsAbove(options: seq<string>, i: nat, r: nat)
    requires i <= |options| && r < Rank(PollOption)
    ensures Above(Polls(options, i), r)
    decreases |options| - i
  {
    if i < |options| {
      PollsAbove(options, i + 1, r);
    }
  }

  lemma LeadingOrder(f: InboundFields)
    ensures Increasing(Leading(f)) && Names(Leading(f)) == LEADING
    ensures forall s <- Leading(f) :: Rank(s.0) < Rank(PollOption)
  {}

  lemma TrailingOrder(f: InboundFields)
    ensures Increasing(Trailing(f)) && Names(Trailing(f)) == TRAILING
    ensures forall s <- Trailing(f) :: Rank(s.0) > Rank(PollOption)
  {}

  /** The list of children determines the fields, empty ones included. */
  lemma CollectFieldsOf(f: InboundFields)
    ensures Collect(FieldsOf(f)) == Some(f)
  {
    LeadingOrder(f);
    TrailingOrder(f);
    var tail := Emit(Trailing(f), []);
    var middle := Polls(f.pollOptions, 0) + tail;
    TakeEmit(Trailing(f), []);
    EmitAbove(Trailing(f), [], Rank(PollOption));
    forall s <- Leading(f)
      ensures Above(middle, Rank(s.0))
    {
      PollsAbove(f.pollOptions, 0, Rank(s.0));
    }
    TakeEmit(Leading(f), middle);
    TakePollsBack(f.pollOptions, 0, tail);
    assert f.pollOptions[0..] == f.pollOptions;
  }

  /* ----- printing ----- */

  /** The characters of a JID's text form: `<user>@<server>`. */
  predicate IsJidChar(c: char) { 'a' <= c <= 'z' || IsDigit(c) || c in {'-', '.', '@'} }

  predicate JidText(s: string) { forall c <- s :: IsJidChar(c) }

  /** Every identifier the parser accepts prints as such a text. */
  lemma JidsPrintPlain(j: Jid.JID)
    requires Jid.Valid(j)
    ensures JidText(Jid.ToString(j))
  {
    Jid.JidIsPlain(j);
  }

  /** `name="value"`; %q adds nothing but the quotes to the values used here. */
  function Attr(name: string, value: string): string { name + "=\"" + value + "\"" }

  function Header(chat: string, sender: string, ts: int): string {
    "<channel source=\"wa\"" + Attr(" chat", chat) + Attr(" sender", sender) + Attr(" ts", IntText(ts)) + ">"
  }

  function IndexText(index: Option<nat>): string {
    match index case Some(i) => Attr(" index", NatText(i)) case None => ""
  }

  function FieldOpen(x: Field): string {
    "<field" + Attr(" name", NameText(x.name)) + IndexText(x.index) + ">"
  }

  const FIELD_CLOSE := "</field>"
  const CLOSE := "</channel>"

  function FieldText(x: Field): string { FieldOpen(x) + EscapeBody(x.value) + FIELD_CLOSE }

  function FieldsText(fs: seq<Field>): string { FlatMap(FieldText, fs) }

  /** ChannelWrapFields as a function. */
  function Envelope(f: InboundFields, chat: string, sender: string, ts: int): string {
    Header(chat, sender, ts) + FieldsText(FieldsOf(f)) + CLOSE
  }

  /** ChannelWrap: one body, no children. */
  function ChannelWrap(body: string, chat: string, sender: string, ts: int): string {
    Header(chat, sender, ts) + EscapeBody(body) + CLOSE
  }

  /* ----- the text, literally ----- */

  function Concat(ts: seq<string>): string { if ts == [] then "" else ts[0] + Concat(ts[1..]) }

  function Child(name: string, value: string): string {
    if value == "" then "" else "<field name=\"" + name + "\">" + EscapeBody(value) + "</field>"
  }

  function OptionChild(i: nat, value: string): string {
    "<field name=\"poll_option\" index=\"" + NatText(i) + "\">" + EscapeBody(value) + "</field>"
  }

  function OptionTexts(options: seq<string>): seq<string> {
    seq(|options|, i requires 0 <= i < |options| => OptionChild(i, options[i]))
  }

  /** The envelope is this text, whatever the fields. */
  lemma EnvelopeIs(f: InboundFields, chat: string, sender: string, ts: int)
    ensures Envelope(f, chat, sender, ts)
      == "<channel source=\"wa\" chat=\"" + chat + "\" sender=\"" + sender + "\" ts=\"" + IntText(ts) + "\">"
       + (Concat([Child("body", f.body), Child("caption", f.caption), Child("push_name", f.pushName),
                  Child("group_subject", f.groupSubject), Child("group_description", f.groupDescription),
                  Child("poll_question", f.pollQuestion)])
          + (Concat(OptionTexts(f.pollOptions))
             + Concat([Child("contact_name", f.contactName), Child("contact_organization", f.contactOrg),
                       Child("location_name", f.locationName), Child("location_address", f.locationAddress),
                       Child("quote_preview", f.quotePreview)])))
       + "</channel>"
  {
    EnvelopeParts(f, chat, sender, ts);
    LeadingTexts(f);
    TrailingTexts(f);
    HeaderIs(chat, sender, ts);
  }

  lemma EnvelopeParts(f: InboundFields, chat: string, sender: string, ts: int)
    ensures Envelope(f, chat, sender, ts)
      == Header(chat, sender, ts)
       + (Concat(SlotTexts(Leading(f))) + (Concat(OptionTexts(f.pollOptions)) + Concat(SlotTexts(Trailing(f)))))
       + CLOSE
  {
    ChildrenText(f);
  }

  lemma ChildrenText(f: InboundFields)
    ensures FieldsText(FieldsOf(f))
      == Concat(SlotTexts(Leading(f))) + (Concat(OptionTexts(f.pollOptions)) + Concat(SlotTexts(Trailing(f))))
  {
    var polls, tail := Polls(f.pollOptions, 0), Emit(Trailing(f), []);
    EmitText(Leading(f), polls + tail);
    EmitText(Trailing(f), []);
    FlatMapConcat(FieldText, polls, tail);
    PollsText(f.pollOptions, 0);
    assert OptionTexts(f.pollOptions)[0..] == OptionTexts(f.pollOptions);
    var last := Concat(SlotTexts(Trailing(f)));
    assert FieldsText([]) == "" && last + "" == last;
  }

  lemma HeaderIs(chat: string, sender: string, ts: int)
    ensures Header(chat, sender, ts)
      == "<channel source=\"wa\" chat=\"" + chat + "\" sender=\"" + sender + "\" ts=\"" + IntText(ts) + "\">"
  {
    var open := "<channel source=\"wa\" chat=\"" + chat;
    AttrIn("<channel source=\"wa\"", " chat", chat, "");
    assert "<channel source=\"wa\"" + " chat" + "=\"" == "<channel source=\"wa\" chat=\"";
    var first := "<channel source=\"wa\"" + Attr(" chat", chat);
    assert first + "" == first && open + "\"" + "" == open + "\"";
    NextAttr(open, " sender", sender);
    assert "\"" + " sender" + "=\"" == "\" sender=\"";
    var second := open + "\" sender=\"" + sender;
    NextAttr(second, " ts", IntText(ts));
    assert "\"" + " ts" + "=\"" == "\" ts=\"";
    Associative(second + "\" ts=\"" + IntText(ts), "\"", ">");
    assert "\"" + ">" == "\">";
  }

  /** An attribute after another one. */
  lemma NextAttr(x: string, name: string, n: string)
    ensures x + "\"" + Attr(name, n) == x + ("\"" + name + "=\"") + n + "\""
  {
    var open := x + "\"";
    AttrIn(open, name, n, "");
    var all, end := open + Attr(name, n), open + name + "=\"" + n + "\"";
    assert all + "" == all && end + "" == end;
    Associative(x, "\"", name);
    Associative(x, "\"" + name, "=\"");
  }

  function SlotTexts(slots: seq<Slot>): seq<string> {
    seq(|slots|, i requires 0 <= i < |slots| => Child(NameText(slots[i].0), slots[i].1))
  }

  lemma LeadingTexts(f: InboundFields)
    ensures SlotTexts(Leading(f))
      == [Child("body", f.body), Child("caption", f.caption), Child("push_name", f.pushName),
          Child("group_subject", f.groupSubject), Child("group_description", f.groupDescription),
          Child("poll_question", f.pollQuestion)]
  {}

  lemma TrailingTexts(f: InboundFields)
    ensures SlotTexts(Trailing(f))
      == [Child("contact_name", f.contactName), Child("contact_organization", f.contactOrg),
          Child("location_name", f.locationName), Child("location_address", f.locationAddress),
          Child("quote_preview", f.quotePreview)]
  {}

  /** An attribute's text and what is around it, put together in two ways. */
  lemma AttrIn(open: string, name: string, n: string, more: string)
    ensures open + Attr(name, n) + more == open + name + "=\"" + n + "\"" + more
  {
    Associative(name, "=\"", n + "\"");
    Associative(name + "=\"", n, "\"");
    Associative(open, name + "=\"", n + "\"");
    Associative(open + (name + "=\""), n, "\"");
    Associative(open, name, "=\"");
  }

  lemma OpenText(n: string)
    ensures "<field" + Attr(" name", n) + "" + ">" == "<field name=\"" + n + "\">"
  {
    var x := "<field" + Attr(" name", n);
    assert x + "" == x;
    AttrIn("<field", " name", n, ">");
    assert "<field" + " name" + "=\"" == "<field name=\"";
    Associative("<field name=\"" + n, "\"", ">");
    assert "\"" + ">" == "\">";
  }

  lemma ChildIs(name: FieldName, value: string)
    requires value != ""
    ensures FieldText(Field(name, None, value)) == Child(NameText(name), value)
  {
    OpenText(NameText(name));
  }

  lemma OptionIs(i: nat, value: string)
    ensures FieldText(Field(PollOption, Some(i), value)) == OptionChild(i, value)
  {
    var n, d := NameText(PollOption), NatText(i);
    AttrIn("<field", " name", n, "");
    assert "<field" + " name" + "=\"" + n + "\"" == "<field name=\"poll_option\"";
    var open := "<field" + Attr(" name", n);
    assert open + "" == open == "<field name=\"poll_option\"";
    AttrIn(open, " index", d, ">");
    assert open + " index" + "=\"" == "<field name=\"poll_option\" index=\"";
    Associative(open + " index" + "=\"" + d, "\"", ">");
    assert "\"" + ">" == "\">";
  }

  lemma OneField(x: Field, more: seq<Field>)
    ensures FieldsText([x] + more) == FieldText(x) + FieldsText(more)
  {
    assert ([x] + more)[1..] == more;
  }

  lemma {:induction false} EmitText(slots: seq<Slot>, rest: seq<Field>)
    ensures FieldsText(Emit(slots, rest)) == Concat(SlotTexts(slots)) + FieldsText(rest)
  {
    if slots == [] {
      assert SlotTexts(slots) == [];
    } else {
      EmitText(slots[1..], rest);
      assert SlotTexts(slots)[1..] == SlotTexts(slots[1..]);
      var first, more := SlotTexts(slots)[0], Emit(slots[1..], rest);
      if slots[0].1 != "" {
        ChildIs(slots[0].0, slots[0].1);
        OneField(Field(slots[0].0, None, slots[0].1), more);
      } else {
        assert first == "" && "" + FieldsText(more) == FieldsText(more);
      }
      Associative(first, Concat(SlotTexts(slots[1..])), FieldsText(rest));
    }
  }

  lemma {:induction false} PollsText(options: seq<string>, i: nat)
    requires i <= |options|
    ensures FieldsText(Polls(options, i)) == Concat(OptionTexts(options)[i..])
    decreases |options| - i
  {
    var ts := OptionTexts(options);
    if i < |options| {
      PollsText(options, i + 1);
      OptionIs(i, options[i]);
      assert ts[i..][1..] == ts[i + 1..];
    }
  }

  /* ----- parsing ----- */

  function Eat(lit: string, s: string): Option<string> {
    if lit <= s then Some(s[|lit|..]) else None
  }

  /** An attribute value and what follows its closing quote. */
  function EatAttr(name: string, s: string): Option<(string, string)> {
    match Eat(name + "=\"", s)
    case None => None
    case Some(rest) =>
      var i := IndexOf(rest, '"');
      if i == |rest| then None else Some((rest[..i], rest[i + 1..]))
  }

  /** Escaped text up to the next tag. */
  function EatBody(s: string): Option<(string, string)> {
    var i := IndexOf(s, '<');
    match Unescape(s[..i])
    case None => None
    case Some(text) => Some((text, s[i..]))
  }

  datatype Head = Head(chat: string, sender: string, ts: int)

  function ParseHeader(s: string): Option<(Head, string)> {
    match Eat("<channel source=\"wa\"", s)
    case None => None
    case Some(s1) =>
      match EatAttr(" chat", s1)
      case None => None
      case Some((chat, s2)) =>
        match EatAttr(" sender", s2)
        case None => None
        case Some((sender, s3)) =>
          match EatAttr(" ts", s3)
          case None => None
          case Some((stamp, s4)) =>
            match (ParseInt(stamp), Eat(">", s4))
            case (Some(ts), Some(s5)) => Some((Head(chat, sender, ts), s5))
            case _ => None
  }

  function ParseIndex(s: string): Option<(Option<nat>, string)> {
    match EatAttr(" index", s)
    case None => Some((None, s))
    case Some((digits, rest)) => if AllDigits(digits) then Some((Some(NatValue(digits)), rest)) else None
  }

  function ParseOpen(s: string): Option<((FieldName, Option<nat>), string)> {
    match Eat("<field", s)
    case None => None
    case Some(s1) =>
      match EatAttr(" name", s1)
      case None => None
      case Some((text, s2)) =>
        match (ParseName(text), ParseIndex(s2))
        case (Some(name), Some((index, s3))) =>
          (match Eat(">", s3) case Some(s4) => Some(((name, index), s4)) case None => None)
        case _ => None
  }

  function ParseField(s: string): Option<(Field, string)> {
    match ParseOpen(s)
    case None => None
    case Some(((name, index), s1)) =>
      match EatBody(s1)
      case None => None
      case Some((value, s2)) =>
        match Eat(FIELD_CLOSE, s2)
        case None => None
        case Some(s3) => Some((Field(name, index, value), s3))
  }

  function ParseFields(s: string): Option<(seq<Field>, string)>
    decreases |s|
  {
    match Eat(CLOSE, s)
    case Some(rest) => Some(([], rest))
    case None =>
      match ParseField(s)
      case None => None
      case Some((x, rest)) =>
        if |rest| >= |s| then None
        else match ParseFields(rest)
          case None => None
          case Some((xs, end)) => Some(([x] + xs, end))
  }

  datatype Parsed = Parsed(head: Head, fields: InboundFields)

  /** The inverse of ChannelWrapFields; nothing may follow the envelope. */
  function ParseEnvelope(s: string): Option<Parsed> {
    match ParseHeader(s)
    case None => None
    case Some((head, s1)) =>
      match ParseFields(s1)
      case None => None
      case Some((xs, end)) =>
        if end != "" then None
        else match Collect(xs)
          case None => None
          case Some(fields) => Some(Parsed(head, fields))
  }

  /** The inverse of ChannelWrap. */
  function ParseSingle(s: string): Option<(Head, string)> {
    match ParseHeader(s)
    case None => None
    case Some((head, s1)) =>
      match EatBody(s1)
      case None => None
      case Some((body, s2)) => if s2 == CLOSE then Some((head, body)) else None
  }

  /* ----- the parser undoes the printer ----- */

  lemma EatBack(lit: string, x: string)
    ensures Eat(lit, lit + x) == Some(x)
  {
    assert (lit + x)[|lit|..] == x;
  }

  lemma EatAttrBack(name: string, value: string, x: string)
    requires '"' !in value
    ensures EatAttr(name, Attr(name, value) + x) == Some((value, x))
  {
    var tail := value + "\"" + x;
    assert Attr(name, value) + x == (name + "=\"") + tail;
    EatBack(name + "=\"", tail);
    IndexOfSeparator(value, '"', x);
    assert tail[..|value|] == value && tail[|value| + 1..] == x;
  }

  lemma EatBodyBack(s: string, x: string)
    requires x != "" && x[0] == '<'
    ensures EatBody(EscapeBody(s) + x) == Some((Clean(s), x))
  {
    var e := EscapeBody(s);
    EscapeRoundTrip(s);
    assert x == "<" + x[1..];
    assert e + x == e + ['<'] + x[1..];
    IndexOfSeparator(e, '<', x[1..]);
    assert (e + x)[..|e|] == e && (e + x)[|e|..] == x;
  }

  lemma JidIsQuotable(s: string)
    requires JidText(s)
    ensures '"' !in s && '<' !in s && '>' !in s
  {}

  lemma HeaderBack(chat: string, sender: string, ts: int, x: string)
    requires JidText(chat) && JidText(sender)
    ensures ParseHeader(Header(chat, sender, ts) + x) == Some((Head(chat, sender, ts), x))
  {
    var open := "<channel source=\"wa\"";
    var c, n, t := Attr(" chat", chat), Attr(" sender", sender), Attr(" ts", IntText(ts));
    var s4 := ">" + x;
    var s3 := t + s4;
    var s2 := n + s3;
    var s1 := c + s2;
    HeaderShape(open, c, n, t, x);
    JidIsQuotable(chat);
    JidIsQuotable(sender);
    EatBack(open, s1);
    EatAttrBack(" chat", chat, s2);
    EatAttrBack(" sender", sender, s3);
    EatAttrBack(" ts", IntText(ts), s4);
    IntRoundTrip(ts);
    EatBack(">", x);
  }

  lemma HeaderShape(open: string, c: string, n: string, t: string, x: string)
    ensures open + c + n + t + ">" + x == open + (c + (n + (t + (">" + x))))
  {
    Associative(open + c + n + t, ">", x);
    Associative(open + c + n, t, ">" + x);
    Associative(open + c, n, t + (">" + x));
    Associative(open, c, n + (t + (">" + x)));
  }

  lemma IndexBack(index: Option<nat>, x: string)
    ensures ParseIndex(IndexText(index) + (">" + x)) == Some((index, ">" + x))
  {
    match index
    case Some(i) =>
      NatRoundTrip(i);
      EatAttrBack(" index", NatText(i), ">" + x);
    case None =>
      assert "" + (">" + x) == ">" + x;
      var lit := " index" + "=\"";
      assert lit[0] == ' ' && (">" + x)[0] == '>';
  }

  lemma OpenBack(name: FieldName, index: Option<nat>, x: string)
    ensures ParseOpen(FieldOpen(Field(name, index, "")) + x) == Some(((name, index), x))
  {
    var n, i := Attr(" name", NameText(name)), IndexText(index);
    OpenShape("<field", n, i, x);
    EatBack("<field", n + (i + (">" + x)));
    NamesArePlain(name);
    EatAttrBack(" name", NameText(name), i + (">" + x));
    ParseNameRoundTrip(name);
    IndexBack(index, x);
    EatBack(">", x);
  }

  lemma OpenShape(open: string, n: string, i: string, x: string)
    ensures open + n + i + ">" + x == open + (n + (i + (">" + x)))
  {
    Associative(open + n + i, ">", x);
    Associative(open + n, i, ">" + x);
    Associative(open, n, i + (">" + x));
  }

  function CleanField(x: Field): Field { x.(value := Clean(x.value)) }

  lemma FieldBack(x: Field, rest: string)
    ensures ParseField(FieldText(x) + rest) == Some((CleanField(x), rest))
  {
    var o, e := FieldOpen(x), EscapeBody(x.value);
    Associative(o + e, FIELD_CLOSE, rest);
    Associative(o, e, FIELD_CLOSE + rest);
    OpenBack(x.name, x.index, e + (FIELD_CLOSE + rest));
    assert (FIELD_CLOSE + rest)[0] == '<';
    EatBodyBack(x.value, FIELD_CLOSE + rest);
    EatBack(FIELD_CLOSE, rest);
  }

  lemma FieldIsNotClose(x: Field, rest: string)
    ensures Eat(CLOSE, FieldText(x) + rest) == None && |FieldText(x)| > 0
  {
    var t := FieldText(x) + rest;
    assert FieldOpen(x)[1] == 'f' && t[1] == FieldOpen(x)[1];
    assert CLOSE[1] == '/';
  }

  function CleanAll(fs: seq<Field>): seq<Field> {
    seq(|fs|, i requires 0 <= i < |fs| => CleanField(fs[i]))
  }

  lemma OneMoreBack(x: Field, rest: string, xs: seq<Field>)
    requires ParseFields(rest) == Some((xs, ""))
    ensures ParseFields(FieldText(x) + rest) == Some(([CleanField(x)] + xs, ""))
  {
    FieldIsNotClose(x, rest);
    FieldBack(x, rest);
  }

  lemma {:induction false} FieldsBack(fs: seq<Field>)
    ensures ParseFields(FieldsText(fs) + CLOSE) == Some((CleanAll(fs), ""))
  {
    if fs == [] {
      assert FieldsText(fs) + CLOSE == CLOSE + "";
      EatBack(CLOSE, "");
    } else {
      Associative(FieldText(fs[0]), FieldsText(fs[1..]), CLOSE);
      FieldsBack(fs[1..]);
      OneMoreBack(fs[0], FieldsText(fs[1..]) + CLOSE, CleanAll(fs[1..]));
      assert CleanAll(fs) == [CleanField(fs[0])] + CleanAll(fs[1..]);
    }
  }

  /* ----- cleaning commutes with listing the children ----- */

  function CleanSlots(slots: seq<Slot>): seq<Slot> {
    seq(|slots|, i requires 0 <= i < |slots| => (slots[i].0, Clean(slots[i].1)))
  }

  function CleanTexts(ts: seq<string>): seq<string> {
    seq(|ts|, i requires 0 <= i < |ts| => Clean(ts[i]))
  }

  lemma {:induction false} CleanEmit(slots: seq<Slot>, rest: seq<Field>)
    ensures CleanAll(Emit(slots, rest)) == Emit(CleanSlots(slots), CleanAll(rest))
  {
    if slots == [] {
      assert CleanSlots(slots) == [];
    } else {
      CleanEmit(slots[1..], rest);
      assert CleanSlots(slots)[1..] == CleanSlots(slots[1..]);
      var more := Emit(slots[1..], rest);
      var first := [Field(slots[0].0, None, slots[0].1)];
      CleanConcat(first, more);
      assert CleanAll(first) == [Field(slots[0].0, None, Clean(slots[0].1))];
      assert |Clean(slots[0].1)| == |slots[0].1|;
    }
  }

  lemma {:induction false} CleanPolls(options: seq<string>, i: nat)
    requires i <= |options|
    ensures CleanAll(Polls(options, i)) == Polls(CleanTexts(options), i)
    decreases |options| - i
  {
    if i < |options| {
      CleanPolls(options, i + 1);
      var first := [Field(PollOption, Some(i), options[i])];
      CleanConcat(first, Polls(options, i + 1));
      assert CleanAll(first) == [Field(PollOption, Some(i), Clean(options[i]))];
    }
  }

  lemma CleanConcat(a: seq<Field>, b: seq<Field>)
    ensures CleanAll(a + b) == CleanAll(a) + CleanAll(b)
  {}

  lemma CleanFieldsOf(f: InboundFields)
    ensures CleanAll(FieldsOf(f)) == FieldsOf(CleanFields(f))
  {
    var tail := Emit(Trailing(f), []);
    CleanEmit(Trailing(f), []);
    assert CleanAll([]) == [];
    assert CleanSlots(Trailing(f)) == Trailing(CleanFields(f));
    CleanPolls(f.pollOptions, 0);
    assert CleanTexts(f.pollOptions) == CleanFields(f).pollOptions;
    CleanConcat(Polls(f.pollOptions, 0), tail);
    CleanEmit(Leading(f), Polls(f.pollOptions, 0) + tail);
    assert CleanSlots(Leading(f)) == Leading(CleanFields(f));
  }

  /* ----- main results ----- */

  /** The parser returns the attributes and exactly the control-cleaned fields,
      every poll option at its index and every omitted field as empty. */
  lemma EnvelopeRoundTrip(f: InboundFields, chat: string, sender: string, ts: int)
    requires JidText(chat) && JidText(sender)
    ensures ParseEnvelope(Envelope(f, chat, sender, ts)) == Some(Parsed(Head(chat, sender, ts), CleanFields(f)))
    ensures FieldsCleaned(f, CleanFields(f))
  {
    CleanFieldsMeans(f);
    var fs := FieldsOf(f);
    Associative(Header(chat, sender, ts), FieldsText(fs), CLOSE);
    HeaderBack(chat, sender, ts, FieldsText(fs) + CLOSE);
    FieldsBack(fs);
    CleanFieldsOf(f);
    CollectFieldsOf(CleanFields(f));
  }

  predicate ControlFree(s: string) { forall c <- s :: !IsControl(c) }

  predicate AllControlFree(f: InboundFields) {
    && ControlFree(f.body) && ControlFree(f.caption) && ControlFree(f.pushName) && ControlFree(f.groupSubject)
    && ControlFree(f.groupDescription) && ControlFree(f.pollQuestion) && (forall s <- f.pollOptions :: ControlFree(s))
    && ControlFree(f.contactName) && ControlFree(f.contactOrg) && ControlFree(f.locationName)
    && ControlFree(f.locationAddress) && ControlFree(f.quotePreview)
  }

  lemma NothingToClean(f: InboundFields)
    requires AllControlFree(f)
    ensures CleanFields(f) == f
  {
    CleanMeans(f.body);
    CleanMeans(f.caption);
    CleanMeans(f.pushName);
    CleanMeans(f.groupSubject);
    CleanMeans(f.groupDescription);
    CleanMeans(f.pollQuestion);
    assert CleanFields(f).pollOptions == f.pollOptions by {
      forall s <- f.pollOptions
        ensures Clean(s) == s
      {
        CleanMeans(s);
      }
    }
    CleanMeans(f.contactName);
    CleanMeans(f.contactOrg);
    CleanMeans(f.locationName);
    CleanMeans(f.locationAddress);
    CleanMeans(f.quotePreview);
  }

  /** Texts without control characters come back as they were. */
  lemma TextSurvives(f: InboundFields, chat: string, sender: string, ts: int)
    requires JidText(chat) && JidText(sender) && AllControlFree(f)
    ensures ParseEnvelope(Envelope(f, chat, sender, ts)) == Some(Parsed(Head(chat, sender, ts), f))
  {
    EnvelopeRoundTrip(f, chat, sender, ts);
    NothingToClean(f);
  }

  lemma WrapRoundTrip(body: string, chat: string, sender: string, ts: int)
    requires JidText(chat) && JidText(sender)
    ensures ParseSingle(ChannelWrap(body, chat, sender, ts)) == Some((Head(chat, sender, ts), Clean(body)))
    ensures Cleaned(body, Clean(body))
  {
    CleanMeans(body);
    Associative(Header(chat, sender, ts), EscapeBody(body), CLOSE);
    HeaderBack(chat, sender, ts, EscapeBody(body) + CLOSE);
    EatBodyBack(body, CLOSE);
  }

  /* ----- the closing tag cannot be forged ----- */

  predicate OccursAt(s: string, lit: string, i: int) {
    0 <= i <= |s| - |lit| && s[i..i + |lit|] == lit
  }

  /** No position of `s` looks like the start of a closing channel tag. */
  predicate NoClose(s: string) {
    forall i | 0 <= i < |s| - 2 :: !(s[i] == '<' && s[i + 1] == '/' && s[i + 2] == 'c')
  }

  predicate EndsTag(s: string) { s != "" && s[|s| - 1] == '>' }

  lemma NoCloseConcat(a: string, b: string)
    requires NoClose(a) && NoClose(b) && (EndsTag(a) || '<' !in a)
    ensures NoClose(a + b)
  {
    var s := a + b;
    forall i | 0 <= i < |s| - 2
      ensures !(s[i] == '<' && s[i + 1] == '/' && s[i + 2] == 'c')
    {
      if i < |a| {
        assert s[i] == a[i];
        if i + 2 >= |a| && EndsTag(a) {
          assert s[|a| - 1] == '>';
        }
      } else {
        assert s[i] == b[i - |a|] && s[i + 1] == b[i + 1 - |a|] && s[i + 2] == b[i + 2 - |a|];
      }
    }
  }

  /** One tag: its only angle bracket that opens is its first character. */
  lemma OneTag(s: string)
    requires s != "" && '<' !in s[1..] && |s| > 2 && (s[1] != '/' || s[2] != 'c')
    ensures NoClose(s)
  {
    forall i | 0 < i < |s|
      ensures s[i] != '<'
    {
      assert s[1..][i - 1] == s[i];
    }
  }

  lemma FieldIsSafe(x: Field)
    ensures NoClose(FieldText(x)) && EndsTag(FieldText(x))
  {
    var o, e := FieldOpen(x), EscapeBody(x.value);
    NamesArePlain(x.name);
    OpenIsSafe(x.name, x.index);
    EscapeRoundTrip(x.value);
    OneTag(FIELD_CLOSE);
    NoCloseConcat(e, FIELD_CLOSE);
    NoCloseConcat(o, e + FIELD_CLOSE);
    Associative(o, e, FIELD_CLOSE);
  }

  /** An opening tag with attributes that hold no angle bracket. */
  lemma OpeningTag(open: string, attrs: string)
    requires |open| > 2 && '<' !in open[1..] && open[1] != '/' && '<' !in attrs
    ensures NoClose(open + attrs + ">") && EndsTag(open + attrs + ">")
  {
    var s := open + attrs + ">";
    assert s[1] == open[1];
    assert s[1..] == open[1..] + attrs + ">";
    OneTag(s);
  }

  lemma AttrHasNoAngle(name: string, value: string)
    requires '<' !in name && '<' !in value
    ensures '<' !in Attr(name, value)
  {}

  lemma OpenIsSafe(name: FieldName, index: Option<nat>)
    ensures var o := FieldOpen(Field(name, index, "")); NoClose(o) && EndsTag(o)
  {
    var n, i := Attr(" name", NameText(name)), IndexText(index);
    NamesArePlain(name);
    AttrHasNoAngle(" name", NameText(name));
    match index {
      case Some(k) => AttrHasNoAngle(" index", NatText(k));
      case None =>
    }
    Associative("<field", n, i);
    OpeningTag("<field", n + i);
  }

  lemma HeaderIsSafe(chat: string, sender: string, ts: int)
    requires JidText(chat) && JidText(sender)
    ensures var h := Header(chat, sender, ts); NoClose(h) && EndsTag(h)
  {
    var c, n, t := Attr(" chat", chat), Attr(" sender", sender), Attr(" ts", IntText(ts));
    JidIsQuotable(chat);
    JidIsQuotable(sender);
    AttrHasNoAngle(" chat", chat);
    AttrHasNoAngle(" sender", sender);
    AttrHasNoAngle(" ts", IntText(ts));
    HeaderTag("<channel source=\"wa\"", c, n, t);
  }

  lemma HeaderTag(open: string, c: string, n: string, t: string)
    requires |open| > 2 && '<' !in open[1..] && open[1] != '/' && '<' !in c && '<' !in n && '<' !in t
    ensures var h := open + c + n + t + ">"; NoClose(h) && EndsTag(h)
  {
    Associative(open, c, n);
    Associative(open, c + n, t);
    OpeningTag(open, c + n + t);
  }

  lemma {:induction false} FieldsAreSafe(fs: seq<Field>)
    ensures NoClose(FieldsText(fs)) && (fs != [] ==> EndsTag(FieldsText(fs)))
  {
    if fs != [] {
      FieldIsSafe(fs[0]);
      FieldsAreSafe(fs[1..]);
      NoCloseConcat(FieldText(fs[0]), FieldsText(fs[1..]));
      if |fs| == 1 {
        assert FieldsText(fs[1..]) == "";
      }
    }
  }

  lemma CloseAtEnd(p: string, i: int)
    requires NoClose(p) && EndsTag(p)
    ensures OccursAt(p + CLOSE, CLOSE, i) <==> i == |p|
  {
    var s := p + CLOSE;
    if OccursAt(s, CLOSE, i) {
      assert s[i] == s[i..i + |CLOSE|][0] == '<';
      assert s[i + 1] == s[i..i + |CLOSE|][1] == '/';
      assert s[i + 2] == s[i..i + |CLOSE|][2] == 'c';
      assert s[|p| - 1] == '>';
      assert forall k | 0 <= k < |p| :: s[k] == p[k];
    }
    assert s[|p|..] == CLOSE;
  }

  /** Whatever the fields contain, the closing tag occurs once: at the end. */
  lemma ClosedOnce(f: InboundFields, chat: string, sender: string, ts: int, i: int)
    requires JidText(chat) && JidText(sender)
    ensures OccursAt(Envelope(f, chat, sender, ts), CLOSE, i) <==> i == |Envelope(f, chat, sender, ts)| - |CLOSE|
  {
    var h, t := Header(chat, sender, ts), FieldsText(FieldsOf(f));
    HeaderIsSafe(chat, sender, ts);
    FieldsAreSafe(FieldsOf(f));
    NoCloseConcat(h, t);
    assert FieldsOf(f) == [] ==> t == "";
    CloseAtEnd(h + t, i);
  }

  /* ----- the code ----- */

  /** Appends one child to the text built so far. */
  method AppendField(b: string, ghost head: string, ghost done: seq<Field>, x: Field) returns (out: string)
    requires b == head + FieldsText(done)
    ensures out == head + FieldsText(done + [x])
  {
    FlatMapAppend(FieldText, done, x);
    Associative(head, FieldsText(done), FieldText(x));
    out := b + FieldText(x);
  }

  /** The emit closure: append one child unless the value is empty. */
  method EmitInto(b: string, ghost head: string, ghost done: seq<Field>, name: FieldName, value: string)
    returns (out: string)
    requires b == head + FieldsText(done)
    ensures out == head + FieldsText(done + if value == "" then [] else [Field(name, None, value)])
  {
    if value == "" {
      assert done + [] == done;
      return b;
    }
    out := AppendField(b, head, done, Field(name, None, value));
  }

  method EmitSlots(b: string, ghost head: string, ghost done: seq<Field>, slots: seq<Slot>) returns (out: string)
    requires b == head + FieldsText(done)
    ensures out == head + FieldsText(done + Emit(slots, []))
  {
    out := b;
    assert done + Emit([], []) == done;
    for i := 0 to |slots|
      invariant out == head + FieldsText(done + Emit(slots[..i], []))
    {
      assert slots[..i + 1] == slots[..i] + [slots[i]];
      EmitAppend(slots[..i], slots[i]);
      Associative(done, Emit(slots[..i], []), if slots[i].1 == "" then [] else [Field(slots[i].0, None, slots[i].1)]);
      out := EmitInto(out, head, done + Emit(slots[..i], []), slots[i].0, slots[i].1);
    }
    assert slots[..|slots|] == slots;
  }

  lemma {:induction false} EmitAppend(slots: seq<Slot>, s: Slot)
    ensures Emit(slots + [s], []) == Emit(slots, []) + (if s.1 == "" then [] else [Field(s.0, None, s.1)])
  {
    if slots == [] {
      assert slots + [s] == [s];
      assert Emit([s][1..], []) == [];
    } else {
      EmitAppend(slots[1..], s);
      assert (slots + [s])[1..] == slots[1..] + [s];
    }
  }

  lemma {:induction false} EmitThen(slots: seq<Slot>, rest: seq<Field>)
    ensures Emit(slots, rest) == Emit(slots, []) + rest
  {
    if slots != [] {
      EmitThen(slots[1..], rest);
    }
  }

  lemma {:induction false} PollsSplit(options: seq<string>, i: nat, j: nat)
    requires i <= j < |options|
    ensures Polls(options, i) == PollsUpTo(options, i, j) + [Field(PollOption, Some(j), options[j])] + Polls(options, j + 1)
    ensures PollsUpTo(options, i, j + 1) == PollsUpTo(options, i, j) + [Field(PollOption, Some(j), options[j])]
    decreases j - i
  {
    if i < j {
      var head, x := [Field(PollOption, Some(i), options[i])], [Field(PollOption, Some(j), options[j])];
      PollsSplit(options, i + 1, j);
      Associative(head, PollsUpTo(options, i + 1, j), x);
      Associative(head, PollsUpTo(options, i + 1, j) + x, Polls(options, j + 1));
    } else {
      assert PollsUpTo(options, j + 1, j + 1) == [];
    }
  }

  function PollsUpTo(options: seq<string>, i: nat, j: nat): seq<Field>
    requires i <= j <= |options|
    decreases j - i
  {
    if i == j then [] else [Field(PollOption, Some(i), options[i])] + PollsUpTo(options, i + 1, j)
  }

  lemma {:induction false} PollsUpToAll(options: seq<string>, i: nat)
    requires i <= |options|
    ensures PollsUpTo(options, i, |options|) == Polls(options, i)
    decreases |options| - i
  {
    if i < |options| {
      PollsUpToAll(options, i + 1);
    }
  }

  /** The loop over the poll options. */
  method EmitPolls(b: string, ghost head: string, ghost done: seq<Field>, options: seq<string>) returns (out: string)
    requires b == head + FieldsText(done)
    ensures out == head + FieldsText(done + Polls(options, 0))
  {
    out := b;
    assert done + PollsUpTo(options, 0, 0) == done;
    for i := 0 to |options|
      invariant out == head + FieldsText(done + PollsUpTo(options, 0, i))
    {
      var x := Field(PollOption, Some(i), options[i]);
      PollsSplit(options, 0, i);
      Associative(done, PollsUpTo(options, 0, i), [x]);
      out := AppendField(out, head, done + PollsUpTo(options, 0, i), x);
    }
    PollsUpToAll(options, 0);
  }

  lemma ChildrenInOrder(f: InboundFields)
    ensures FieldsOf(f) == Emit(Leading(f), []) + Polls(f.pollOptions, 0) + Emit(Trailing(f), [])
  {
    var polls, tail := Polls(f.pollOptions, 0), Emit(Trailing(f), []);
    EmitThen(Leading(f), polls + tail);
    Associative(Emit(Leading(f), []), polls, tail);
  }

  /** ChannelWrapFields: builds the text child by child. */
  method ChannelWrapFields(f: InboundFields, chat: string, sender: string, ts: int) returns (b: string)
    ensures b == Envelope(f, chat, sender, ts)
  {
    var head := Header(chat, sender, ts);
    ghost var leading := Emit(Leading(f), []);
    assert head == head + FieldsText([]) && [] + leading == leading;
    b := EmitSlots(head, head, [], Leading(f));
    b := EmitPolls(b, head, leading, f.pollOptions);
    b := EmitSlots(b, head, leading + Polls(f.pollOptions, 0), Trailing(f));
    ChildrenInOrder(f);
    b := b + CLOSE;
  }

  /** The parser accepts no empty text. */
  lemma NoEnvelope()
    ensures ParseEnvelope("") == None
  {}

  /** ChannelWrapFieldsIf: no envelope at all without a guard. */
  method ChannelWrapFieldsIf(guard: string, f: InboundFields, chat: string, sender: string, ts: int) returns (b: string)
    ensures b == if guard == "" then "" else Envelope(f, chat, sender, ts)
    ensures b == "" <==> guard == ""
    ensures JidText(chat) && JidText(sender) ==>
      ParseEnvelope(b) == if guard == "" then None else Some(Parsed(Head(chat, sender, ts), CleanFields(f)))
    ensures FieldsCleaned(f, CleanFields(f))
  {
    if JidText(chat) && JidText(sender) {
      EnvelopeRoundTrip(f, chat, sender, ts);
    }
    CleanFieldsMeans(f);
    if guard == "" {
      NoEnvelope();
      return "";
    }
    b := ChannelWrapFields(f, chat, sender, ts);
  }
}
