/** The default-deny allowlist, its file and the transactions that change both
    (internal/domain/allowlist.go, cmd/wad/allowlist.go, cmd/wad/methods.go). */
module Allowlist {
  import opened Text
  import opened Jid

  type Policy = map<JID, set<Action>>

  predicate Allows(p: Policy, j: JID, a: Action) { j in p && a in p[j] }

  /** What every reachable policy satisfies: nobody is listed with nothing, and
      every identifier came out of the parser. */
  predicate WellFormed(p: Policy) { forall j <- p :: p[j] != {} && Valid(j) }

  function Elems<T>(xs: seq<T>): set<T> { set x <- xs }

  function Granted(p: Policy, j: JID, s: set<Action>): Policy {
    var t := (if j in p then p[j] else {}) + s;
    if t == {} then p else p[j := t]
  }

  function Revoked(p: Policy, j: JID, s: set<Action>): Policy {
    if j !in p then p else if p[j] - s == {} then p - {j} else p[j := p[j] - s]
  }

  lemma GrantedAllows(p: Policy, j: JID, s: set<Action>, k: JID, a: Action)
    ensures Allows(Granted(p, j, s), k, a) <==> Allows(p, k, a) || (k == j && a in s)
  {
    var t := (if j in p then p[j] else {}) + s;
    if t == {} && k == j {
      assert a !in t;
    }
  }

  lemma RevokedAllows(p: Policy, j: JID, s: set<Action>, k: JID, a: Action)
    ensures Allows(Revoked(p, j, s), k, a) <==> Allows(p, k, a) && !(k == j && a in s)
  {
    if j in p && p[j] - s == {} && k == j {
      assert a !in p[j] - s;
    }
  }

  /** Two well-formed policies are equal when they allow the same things. */
  lemma Extensional(p: Policy, q: Policy)
    requires WellFormed(p) && WellFormed(q)
    requires forall j, a :: Allows(p, j, a) <==> Allows(q, j, a)
    ensures p == q
  {
    forall j: JID
      ensures j in p <==> j in q
    {
      SameKey(p, q, j);
      SameKey(q, p, j);
    }
    forall j | j in p
      ensures p[j] == q[j]
    {
      forall a
        ensures a in p[j] <==> a in q[j]
      {
        assert Allows(p, j, a) <==> Allows(q, j, a);
      }
    }
  }

  lemma SameKey(p: Policy, q: Policy, j: JID)
    requires WellFormed(p)
    requires forall a :: Allows(p, j, a) ==> Allows(q, j, a)
    ensures j in p ==> j in q
  {
    if j in p {
      var a :| a in p[j];
      assert Allows(p, j, a);
    }
  }

  lemma GrantedWellFormed(p: Policy, j: JID, s: set<Action>)
    requires WellFormed(p) && Valid(j)
    ensures WellFormed(Granted(p, j, s))
  {}

  lemma RevokedWellFormed(p: Policy, j: JID, s: set<Action>)
    requires WellFormed(p)
    ensures WellFormed(Revoked(p, j, s))
  {}

  function Prior(p: Policy, j: JID): set<Action> { if j in p then p[j] else {} }

  /** Undoing a grant: revoke what was granted, grant back what there was. Exact
      also when the two overlap, where revoking alone would take too much. */
  lemma RevertAdd(p: Policy, j: JID, s: set<Action>)
    requires WellFormed(p) && Valid(j)
    ensures Granted(Revoked(Granted(p, j, s), j, s), j, Prior(p, j)) == p
  {
    var g := Granted(p, j, s);
    var v := Revoked(g, j, s);
    var r := Granted(v, j, Prior(p, j));
    GrantedWellFormed(p, j, s);
    RevokedWellFormed(g, j, s);
    GrantedWellFormed(v, j, Prior(p, j));
    forall k, a
      ensures Allows(r, k, a) <==> Allows(p, k, a)
    {
      GrantedAllows(p, j, s, k, a);
      RevokedAllows(g, j, s, k, a);
      GrantedAllows(v, j, Prior(p, j), k, a);
    }
    Extensional(r, p);
  }

  /** Undoing a removal. */
  lemma RevertRemove(p: Policy, j: JID)
    requires WellFormed(p) && Valid(j)
    ensures Granted(Revoked(p, j, Prior(p, j)), j, Prior(p, j)) == p
  {
    var v := Revoked(p, j, Prior(p, j));
    var r := Granted(v, j, Prior(p, j));
    RevokedWellFormed(p, j, Prior(p, j));
    GrantedWellFormed(v, j, Prior(p, j));
    forall k, a
      ensures Allows(r, k, a) <==> Allows(p, k, a)
    {
      RevokedAllows(p, j, Prior(p, j), k, a);
      GrantedAllows(v, j, Prior(p, j), k, a);
    }
    Extensional(r, p);
  }

  /* ----- the file ----- */

  datatype Rule = Rule(jid: string, actions: seq<string>)

  /** Garbage is a file that is not the expected TOML. */
  datatype Content = Absent | Garbage | Toml(rules: seq<Rule>)

  function ParseActions(texts: seq<string>): (r: Option<seq<Action>>) {
    if texts == [] then Some([])
    else
      var more := ParseActions(texts[..|texts| - 1]);
      var last := ParseAction(texts[|texts| - 1]);
      if more.Some? && last.Some? then Some(more.value + [last.value]) else None
  }

  function LoadRules(rules: seq<Rule>): Option<Policy> {
    if rules == [] then Some(map[])
    else
      var before, r := LoadRules(rules[..|rules| - 1]), rules[|rules| - 1];
      var j, acts := Parse(r.jid), ParseActions(r.actions);
      if before.Some? && j.Some? && acts.Some? then Some(Granted(before.value, j.value, Elems(acts.value))) else None
  }

  /** The policy a file stands for; a missing file is the empty policy. */
  function Load(c: Content): Option<Policy> {
    match c
    case Absent => Some(map[])
    case Garbage => None
    case Toml(rules) => LoadRules(rules)
  }

  predicate Sound(r: Rule) { Parse(r.jid).Some? && forall s <- r.actions :: ParseAction(s).Some? }

  predicate Says(r: Rule, j: JID, a: Action) {
    Parse(r.jid) == Some(j) && exists s <- r.actions :: ParseAction(s) == Some(a)
  }

  lemma {:induction false} ParseActionsMeans(texts: seq<string>)
    ensures ParseActions(texts).Some? <==> forall s <- texts :: ParseAction(s).Some?
    ensures var r := ParseActions(texts);
            r.Some? ==> |r.value| == |texts| && forall i | 0 <= i < |texts| :: ParseAction(texts[i]) == Some(r.value[i])
    ensures var r := ParseActions(texts);
            r.Some? ==> forall a :: a in r.value <==> exists s <- texts :: ParseAction(s) == Some(a)
  {
    if texts != [] {
      var front, last := texts[..|texts| - 1], texts[|texts| - 1];
      ParseActionsMeans(front);
      assert texts == front + [last];
    }
  }

  /** A rule file loads exactly when every rule is sound, and then allows exactly
      what some rule says, however often an identifier occurs and however it is
      spelled. */
  lemma {:induction false} LoadMeans(rules: seq<Rule>)
    ensures LoadRules(rules).Some? <==> forall r <- rules :: Sound(r)
    ensures var p := LoadRules(rules);
            p.Some? ==> WellFormed(p.value) && forall j, a :: Allows(p.value, j, a) <==> exists r <- rules :: Says(r, j, a)
  {
    if rules != [] {
      var front, last := rules[..|rules| - 1], rules[|rules| - 1];
      LoadMeans(front);
      ParseActionsMeans(last.actions);
      assert rules == front + [last];
      assert (forall r <- rules :: Sound(r)) <==> (forall r <- front :: Sound(r)) && Sound(last);
      if LoadRules(rules).Some? {
        LoadMeansStep(rules, front, last);
      }
    }
  }

  lemma LoadMeansStep(rules: seq<Rule>, front: seq<Rule>, last: Rule)
    requires rules == front + [last]
    requires LoadRules(rules).Some? && LoadRules(front).Some? && WellFormed(LoadRules(front).value)
    requires forall j, a :: Allows(LoadRules(front).value, j, a) <==> exists r <- front :: Says(r, j, a)
    ensures WellFormed(LoadRules(rules).value)
    ensures forall j, a :: Allows(LoadRules(rules).value, j, a) <==> exists r <- rules :: Says(r, j, a)
  {
    assert rules[..|rules| - 1] == front;
    var before, j0, acts := LoadRules(front).value, Parse(last.jid).value, ParseActions(last.actions).value;
    ParsedIsValid(last.jid);
    ParseActionsMeans(last.actions);
    GrantedWellFormed(before, j0, Elems(acts));
    forall j, a
      ensures Allows(LoadRules(rules).value, j, a) <==> exists r <- rules :: Says(r, j, a)
    {
      GrantedAllows(before, j0, Elems(acts), j, a);
      assert Says(last, j, a) <==> j == j0 && a in acts;
    }
  }

  function Texts(actions: seq<Action>): seq<string> {
    seq(|actions|, i requires 0 <= i < |actions| => ActionText(actions[i]))
  }

  lemma {:induction false} TextsParse(actions: seq<Action>)
    ensures ParseActions(Texts(actions)) == Some(actions)
  {
    if actions != [] {
      var n := |actions| - 1;
      assert Texts(actions)[..n] == Texts(actions[..n]);
      TextsParse(actions[..n]);
      ActionRoundTrip(actions[n]);
      assert actions == actions[..n] + [actions[n]];
    }
  }

  /** actionSet.list: the granted actions in declaration order. */
  function Listed(s: set<Action>, all: seq<Action>): (l: seq<Action>)
    ensures forall a :: a in l <==> a in s && a in all
  {
    if all == [] then []
    else
      var l := Listed(s, all[..|all| - 1]);
      var a := all[|all| - 1];
      assert all == all[..|all| - 1] + [a];
      if a in s then l + [a] else l
  }

  function List(s: set<Action>): (l: seq<Action>)
    ensures Elems(l) == s
  {
    var l := Listed(s, ALL_ACTIONS);
    assert Elems(l) == s by {
      forall a | a in s
        ensures a in l
      {
        AllListed(a);
      }
    }
    l
  }

  function RuleOf(p: Policy, j: JID): Rule
    requires j in p
  {
    Rule(ToString(j), Texts(List(p[j])))
  }

  function RulesOf(p: Policy, order: seq<JID>): seq<Rule>
    requires forall j <- order :: j in p
  {
    seq(|order|, i requires 0 <= i < |order| => RuleOf(p, order[i]))
  }

  lemma {:induction false} SavedRulesSay(p: Policy, j: JID, k: JID, a: Action)
    requires WellFormed(p) && j in p
    ensures Sound(RuleOf(p, j))
    ensures Says(RuleOf(p, j), k, a) <==> k == j && a in p[j]
  {
    JidRoundTrip(j);
    TextsParse(List(p[j]));
    ParseActionsMeans(Texts(List(p[j])));
    assert a in List(p[j]) <==> a in Elems(List(p[j]));
  }

  /** Loading what saving wrote gives the policy back, whatever order the entries
      were written in. */
  lemma LoadSaveIdentity(p: Policy, order: seq<JID>)
    requires WellFormed(p)
    requires forall j :: j in order <==> j in p
    ensures LoadRules(RulesOf(p, order)) == Some(p)
  {
    var rules := RulesOf(p, order);
    LoadMeans(rules);
    forall r | r in rules
      ensures Sound(r)
    {
      var i :| 0 <= i < |rules| && rules[i] == r;
      SavedRulesSay(p, order[i], order[i], Read);
    }
    var q := LoadRules(rules).value;
    forall j, a
      ensures Allows(q, j, a) <==> Allows(p, j, a)
    {
      SavedSays(p, order, j, a);
    }
    Extensional(q, p);
  }

  lemma SavedSays(p: Policy, order: seq<JID>, j: JID, a: Action)
    requires WellFormed(p)
    requires forall j :: j in order <==> j in p
    ensures (exists r <- RulesOf(p, order) :: Says(r, j, a)) <==> Allows(p, j, a)
  {
    var rules := RulesOf(p, order);
    forall i | 0 <= i < |order|
      ensures Says(rules[i], j, a) <==> j == order[i] && a in p[j]
    {
      SavedRulesSay(p, order[i], j, a);
    }
    if Allows(p, j, a) {
      var i :| 0 <= i < |order| && order[i] == j;
      assert rules[i] in rules;
    }
  }

  /* ----- the mutable objects ----- */

  class Allowlist {
    var entries: Policy

    constructor ()
      ensures entries == map[]
    {
      entries := map[];
    }

    method Grant(j: JID, actions: seq<Action>)
      modifies this
      ensures entries == Granted(old(entries), j, Elems(actions))
    {
      var s := if j in entries then entries[j] else {};
      ghost var before := s;
      for i := 0 to |actions|
        invariant s == before + Elems(actions[..i])
      {
        assert actions[..i + 1] == actions[..i] + [actions[i]];
        s := s + {actions[i]};
      }
      assert actions[..|actions|] == actions;
      if s != {} {
        entries := entries[j := s];
      }
    }

    method Revoke(j: JID, actions: seq<Action>)
      modifies this
      ensures entries == Revoked(old(entries), j, Elems(actions))
    {
      if j !in entries {
        return;
      }
      var s := entries[j];
      for i := 0 to |actions|
        invariant s == entries[j] - Elems(actions[..i])
        invariant entries == old(entries)
      {
        assert actions[..i + 1] == actions[..i] + [actions[i]];
        s := s - {actions[i]};
      }
      assert actions[..|actions|] == actions;
      entries := if s == {} then entries - {j} else entries[j := s];
    }
  }

  datatype Event =
    | GrantRow(jid: JID, actions: seq<Action>)
    | RevokeRow(jid: JID)
    | ReloadRow(applied: bool)

  /** Which accesses to the audit log and to the file succeed during one request. */
  datatype Env = Env(audit: bool, save: bool, read: bool)

  /** The append-only audit log; an append can fail. */
  class AuditLog {
    var rows: seq<Event>

    constructor ()
      ensures rows == []
    {
      rows := [];
    }

    method Record(e: Event, works: bool) returns (ok: bool)
      modifies this
      ensures ok == works && rows == if ok then old(rows) + [e] else old(rows)
    {
      ok := works;
      if ok {
        rows := rows + [e];
      }
    }
  }

  /** allowlist.toml; reading it can fail, and so can any step of replacing it. */
  class ConfigFile {
    var content: Content

    constructor (content: Content)
      ensures this.content == content
    {
      this.content := content;
    }

    method Read(works: bool) returns (r: Option<Content>)
      ensures r == if works then Some(content) else None
    {
      r := if works then Some(content) else None;
    }

    method Replace(c: Content, works: bool) returns (ok: bool)
      modifies this
      ensures ok == works && content == if ok then c else old(content)
    {
      ok := works;
      if ok {
        content := c;
      }
    }
  }

  /** parseAllowlistBytes: fills `al` rule by rule. */
  method ParseAllowlistBytes(c: Content, al: Allowlist) returns (ok: bool)
    requires !c.Absent? && al.entries == map[]
    modifies al
    ensures ok <==> Load(c).Some?
    ensures ok ==> Some(al.entries) == Load(c)
  {
    if c.Garbage? {
      return false;
    }
    for i := 0 to |c.rules|
      invariant LoadRules(c.rules[..i]) == Some(al.entries)
    {
      var r := c.rules[i];
      assert c.rules[..i + 1][..i] == c.rules[..i];
      var j := Parse(r.jid);
      var actions := ParseAll(r.actions);
      if j.None? || actions.None? {
        LoadMeans(c.rules);
        ParseActionsMeans(r.actions);
        assert r in c.rules && !Sound(r);
        return false;
      }
      al.Grant(j.value, actions.value);
    }
    assert c.rules[..|c.rules|] == c.rules;
    return true;
  }

  /** The parsing loop that the loader and the add handler share in shape. */
  method ParseAll(texts: seq<string>) returns (r: Option<seq<Action>>)
    ensures r == ParseActions(texts)
  {
    var actions := [];
    for i := 0 to |texts|
      invariant ParseActions(texts[..i]) == Some(actions)
    {
      assert texts[..i + 1][..i] == texts[..i];
      var a := ParseAction(texts[i]);
      if a.None? {
        ParseActionsMeans(texts);
        return None;
      }
      actions := actions + [a.value];
    }
    assert texts[..|texts|] == texts;
    return Some(actions);
  }

  method LoadAllowlist(file: ConfigFile, works: bool) returns (al: Allowlist?)
    ensures al == null <==> !works || Load(file.content).None?
    ensures al != null ==> fresh(al) && Load(file.content) == Some(al.entries) && WellFormed(al.entries)
    ensures al != null ==> !file.content.Garbage? && (file.content.Absent? ==> al.entries == map[])
  {
    var fresh_ := new Allowlist();
    var c := file.Read(works);
    if c.None? {
      return null;
    }
    if c.value.Absent? {
      return fresh_;
    }
    var ok := ParseAllowlistBytes(c.value, fresh_);
    if !ok {
      return null;
    }
    LoadWellFormed(c.value);
    return fresh_;
  }

  lemma LoadWellFormed(c: Content)
    requires Load(c).Some?
    ensures WellFormed(Load(c).value)
  {
    if c.Toml? {
      LoadMeans(c.rules);
    }
  }

  /** saveAllowlist: one rule per entry, in whatever order the map yields them. On
      success the file loads back as exactly this policy; on failure it is as it
      was. */
  method SaveAllowlist(file: ConfigFile, al: Allowlist, works: bool) returns (ok: bool)
    requires WellFormed(al.entries)
    modifies file
    ensures ok == works
    ensures ok ==> file.content.Toml? && Load(file.content) == Some(al.entries)
    ensures !ok ==> file.content == old(file.content)
  {
    ghost var order: seq<JID> := [];
    var rules: seq<Rule> := [];
    var left := al.entries.Keys;
    while left != {}
      invariant left <= al.entries.Keys
      invariant forall j :: j in order <==> j in al.entries.Keys - left
      invariant rules == RulesOf(al.entries, order)
      decreases left
    {
      var j :| j in left;
      rules := rules + [Rule(ToString(j), Texts(List(al.entries[j])))];
      order := order + [j];
      left := left - {j};
    }
    LoadSaveIdentity(al.entries, order);
    ok := file.Replace(Toml(rules), works);
  }

  /* ----- the transactions ----- */

  datatype Reply = Done | InvalidParams | InvalidJid | AuditFailed | PersistFailed | LoadFailed

  /** The policy in memory is the one on disk. */
  ghost predicate InSync(al: Allowlist, file: ConfigFile)
    reads al, file
  {
    Load(file.content) == Some(al.entries)
  }

  method HandleAllowAdd(jidText: string, actionTexts: seq<string>, al: Allowlist, file: ConfigFile, audit: AuditLog, env: Env)
    returns (r: Reply)
    requires WellFormed(al.entries)
    modifies al, file, audit
    ensures WellFormed(al.entries)
    ensures r ==
      if jidText == "" || actionTexts == [] then InvalidParams
      else if Parse(jidText).None? then InvalidJid
      else if ParseActions(actionTexts).None? then InvalidParams
      else if !env.audit then AuditFailed
      else if !env.save then PersistFailed
      else Done
    ensures r == Done ==>
      Parse(jidText).Some? && ParseActions(actionTexts).Some?
      && al.entries == Granted(old(al.entries), Parse(jidText).value, Elems(ParseActions(actionTexts).value))
    ensures r == Done ==> InSync(al, file)
    ensures r != Done ==> al.entries == old(al.entries) && file.content == old(file.content)
    ensures r != LoadFailed
    ensures audit.rows ==
      if r in {Done, PersistFailed} && Parse(jidText).Some? && ParseActions(actionTexts).Some?
      then old(audit.rows) + [GrantRow(Parse(jidText).value, ParseActions(actionTexts).value)]
      else old(audit.rows)
  {
    if jidText == "" || actionTexts == [] {
      return InvalidParams;
    }
    var j := Parse(jidText);
    if j.None? {
      return InvalidJid;
    }
    var actions := ParseAll(actionTexts);
    if actions.None? {
      return InvalidParams;
    }
    ParsedIsValid(jidText);
    var prior: seq<Action> := if j.value in al.entries then List(al.entries[j.value]) else [];
    RevertAdd(al.entries, j.value, Elems(actions.value));
    GrantedWellFormed(al.entries, j.value, Elems(actions.value));
    al.Grant(j.value, actions.value);
    var recorded := audit.Record(GrantRow(j.value, actions.value), env.audit);
    if !recorded {
      UndoGrant(al, j.value, actions.value, prior);
      return AuditFailed;
    }
    var saved := SaveAllowlist(file, al, env.save);
    if !saved {
      UndoGrant(al, j.value, actions.value, prior);
      return PersistFailed;
    }
    return Done;
  }

  lemma GrantedNothing(p: Policy, j: JID)
    ensures Granted(p, j, Elems([])) == p
  {
    assert Elems<Action>([]) == {};
    if j in p {
      assert p[j] + {} == p[j] && p[j := p[j]] == p;
    }
  }

  /** The revert closure of an add. */
  method UndoGrant(al: Allowlist, j: JID, actions: seq<Action>, prior: seq<Action>)
    modifies al
    ensures al.entries == Granted(Revoked(old(al.entries), j, Elems(actions)), j, Elems(prior))
  {
    al.Revoke(j, actions);
    GrantedNothing(al.entries, j);
    if prior != [] {
      al.Grant(j, prior);
    }
  }

  method HandleAllowRemove(jidText: string, al: Allowlist, file: ConfigFile, audit: AuditLog, env: Env) returns (r: Reply)
    requires WellFormed(al.entries)
    modifies al, file, audit
    ensures WellFormed(al.entries)
    ensures r ==
      if jidText == "" then InvalidParams
      else if Parse(jidText).None? then InvalidJid
      else if !env.audit then AuditFailed
      else if !env.save then PersistFailed
      else Done
    ensures r == Done ==> Parse(jidText).Some? && al.entries == old(al.entries) - {Parse(jidText).value}
    ensures r == Done ==> InSync(al, file)
    ensures r != Done ==> al.entries == old(al.entries) && file.content == old(file.content)
    ensures r != LoadFailed
    ensures audit.rows ==
      if r in {Done, PersistFailed} && Parse(jidText).Some?
      then old(audit.rows) + [RevokeRow(Parse(jidText).value)]
      else old(audit.rows)
  {
    if jidText == "" {
      return InvalidParams;
    }
    var j := Parse(jidText);
    if j.None? {
      return InvalidJid;
    }
    ParsedIsValid(jidText);
    var removed: seq<Action> := if j.value in al.entries then List(al.entries[j.value]) else [];
    RevertRemove(al.entries, j.value);
    if removed != [] {
      al.Revoke(j.value, removed);
    }
    assert al.entries == old(al.entries) - {j.value};
    var recorded := audit.Record(RevokeRow(j.value), env.audit);
    if !recorded {
      UndoRevoke(al, j.value, removed);
      return AuditFailed;
    }
    var saved := SaveAllowlist(file, al, env.save);
    if !saved {
      UndoRevoke(al, j.value, removed);
      return PersistFailed;
    }
    return Done;
  }

  /** The revert closure of a removal. */
  method UndoRevoke(al: Allowlist, j: JID, removed: seq<Action>)
    modifies al
    ensures al.entries == Granted(old(al.entries), j, Elems(removed))
  {
    GrantedNothing(al.entries, j);
    if removed != [] {
      al.Grant(j, removed);
    }
  }

  /** Restricting a policy to some of its keys. */
  function Only(p: Policy, keys: set<JID>): Policy { map j | j in p && j in keys :: p[j] }

  /** reloadAllowlist: a file that cannot be read or parsed leaves the policy alone;
      otherwise everybody is revoked and the new entries are granted. */
  method ReloadAllowlist(al: Allowlist, file: ConfigFile, audit: AuditLog, env: Env) returns (r: Reply)
    requires WellFormed(al.entries)
    modifies al, audit
    ensures WellFormed(al.entries)
    ensures r == if env.read && Load(file.content).Some? then Done else LoadFailed
    ensures r == Done ==> InSync(al, file)
    ensures r == LoadFailed ==> al.entries == old(al.entries)
    ensures audit.rows == if env.audit then old(audit.rows) + [ReloadRow(r == Done)] else old(audit.rows)
  {
    var next := LoadAllowlist(file, env.read);
    if next == null {
      var _ := audit.Record(ReloadRow(false), env.audit);
      return LoadFailed;
    }
    RevokeAll(al);
    GrantAll(al, next.entries);
    var _ := audit.Record(ReloadRow(true), env.audit);
    return Done;
  }

  method RevokeAll(al: Allowlist)
    requires WellFormed(al.entries)
    modifies al
    ensures al.entries == map[]
  {
    var all := al.entries;
    var left := all.Keys;
    while left != {}
      invariant left <= all.Keys
      invariant al.entries == Only(all, left)
      decreases left
    {
      var j :| j in left;
      al.Revoke(j, List(all[j]));
      left := left - {j};
    }
  }

  method GrantAll(al: Allowlist, p: Policy)
    requires WellFormed(p) && al.entries == map[]
    modifies al
    ensures al.entries == p
  {
    var left := p.Keys;
    while left != {}
      invariant left <= p.Keys
      invariant al.entries == Only(p, p.Keys - left)
      decreases left
    {
      var j :| j in left;
      assert {} + p[j] == p[j];
      al.Grant(j, List(p[j]));
      assert Only(p, p.Keys - (left - {j})) == Only(p, p.Keys - left)[j := p[j]];
      left := left - {j};
    }
  }

  /* ----- whole sessions ----- */

  /** What reaches the daemon; Edit is an operator rewriting the file. */
  datatype Op = Add(jid: string, actions: seq<string>) | Remove(jid: string) | Reload | Edit(content: Content)

  /** The policy being enforced and the one a restart would load. */
  datatype View = View(memory: Policy, disk: Option<Policy>)

  /** A granted JID and its actions, when the texts parse. */
  predicate Grants(op: Op, j: JID, a: Action) {
    op.Add? && Parse(op.jid) == Some(j) && ParseActions(op.actions).Some? && a in ParseActions(op.actions).value
  }

  function Committed(p: Policy): View { View(p, Some(p)) }

  function Step(v: View, op: Op, r: Reply): View {
    match op
    case Edit(c) => v.(disk := Load(c))
    case Add(jid, actions) =>
      if r == Done && Parse(jid).Some? && ParseActions(actions).Some?
      then Committed(Granted(v.memory, Parse(jid).value, Elems(ParseActions(actions).value)))
      else v
    case Remove(jid) => if r == Done && Parse(jid).Some? then Committed(v.memory - {Parse(jid).value}) else v
    case Reload => if r == Done && v.disk.Some? then Committed(v.disk.value) else v
  }

  function Run(v: View, ops: seq<Op>, replies: seq<Reply>): View
    requires |ops| == |replies|
  {
    if ops == [] then v
    else
      var n := |ops| - 1;
      Step(Run(v, ops[..n], replies[..n]), ops[n], replies[n])
  }

  /** Memory and disk may differ: an edit came after the last call that succeeded. */
  predicate Dirty(ops: seq<Op>, replies: seq<Reply>, start: bool)
    requires |ops| == |replies|
  {
    if ops == [] then start
    else
      var n := |ops| - 1;
      ops[n].Edit? || (replies[n] != Done && Dirty(ops[..n], replies[..n], start))
  }

  /** Every successful call was answerable: its texts parsed, its file loaded. */
  predicate Genuine(v: View, op: Op, r: Reply) {
    r == Done ==>
      match op
      case Edit(_) => true
      case Add(jid, actions) => Parse(jid).Some? && ParseActions(actions).Some?
      case Remove(jid) => Parse(jid).Some?
      case Reload => v.disk.Some?
  }

  predicate AllGenuine(v: View, ops: seq<Op>, replies: seq<Reply>)
    requires |ops| == |replies|
  {
    forall i :: 0 <= i < |ops| ==> Genuine(Run(v, ops[..i], replies[..i]), ops[i], replies[i])
  }

  ghost function ViewOf(al: Allowlist, file: ConfigFile): View
    reads al, file
  {
    View(al.entries, Load(file.content))
  }

  /** What a request is answered, given what is in memory and on disk and which accesses
      succeed. */
  ghost function Answer(v: View, op: Op, env: Env): Reply {
    match op
    case Edit(_) => Done
    case Add(jid, actions) =>
      if jid == "" || actions == [] then InvalidParams
      else if Parse(jid).None? then InvalidJid
      else if ParseActions(actions).None? then InvalidParams
      else if !env.audit then AuditFailed
      else if !env.save then PersistFailed
      else Done
    case Remove(jid) =>
      if jid == "" then InvalidParams
      else if Parse(jid).None? then InvalidJid
      else if !env.audit then AuditFailed
      else if !env.save then PersistFailed
      else Done
    case Reload => if env.read && v.disk.Some? then Done else LoadFailed
  }

  /** Each request got its answer. */
  ghost predicate Answered(v: View, ops: seq<Op>, envs: seq<Env>, replies: seq<Reply>)
    requires |ops| == |replies| == |envs|
  {
    forall i :: 0 <= i < |ops| ==> replies[i] == Answer(Run(v, ops[..i], replies[..i]), ops[i], envs[i])
  }

  lemma AnsweredAppend(v: View, ops: seq<Op>, envs: seq<Env>, replies: seq<Reply>, op: Op, env: Env)
    requires |ops| == |replies| == |envs| && Answered(v, ops, envs, replies)
    ensures Answered(v, ops + [op], envs + [env], replies + [Answer(Run(v, ops, replies), op, env)])
  {
    var ops', replies' := ops + [op], replies + [Answer(Run(v, ops, replies), op, env)];
    forall i | 0 <= i < |ops'|
      ensures replies'[i] == Answer(Run(v, ops'[..i], replies'[..i]), ops'[i], (envs + [env])[i])
    {
      assert ops'[..i] == ops[..i] && replies'[..i] == replies[..i];
      assert ops[..|ops|] == ops && replies[..|ops|] == replies;
    }
  }

  /** One request after the other; the reply to an edit is Done. */
  method Session(ops: seq<Op>, al: Allowlist, file: ConfigFile, audit: AuditLog, envs: seq<Env>) returns (replies: seq<Reply>)
    requires WellFormed(al.entries) && |envs| == |ops|
    modifies al, file, audit
    ensures WellFormed(al.entries)
    ensures |replies| == |ops|
    ensures AllGenuine(old(ViewOf(al, file)), ops, replies) && Answered(old(ViewOf(al, file)), ops, envs, replies)
    ensures ViewOf(al, file) == Run(old(ViewOf(al, file)), ops, replies)
    ensures forall i, j, a :: 0 <= i < |ops| && replies[i] == Done && Grants(ops[i], j, a) ==> Audited(audit.rows, j, a)
  {
    replies := [];
    for k := 0 to |ops|
      invariant WellFormed(al.entries)
      invariant |replies| == k
      invariant AllGenuine(old(ViewOf(al, file)), ops[..k], replies)
      invariant Answered(old(ViewOf(al, file)), ops[..k], envs[..k], replies)
      invariant ViewOf(al, file) == Run(old(ViewOf(al, file)), ops[..k], replies)
      invariant forall i, j, a :: 0 <= i < k && replies[i] == Done && Grants(ops[i], j, a) ==> Audited(audit.rows, j, a)
    {
      var r := Serve(ops[k], al, file, audit, envs[k]);
      GenuineAppend(old(ViewOf(al, file)), ops[..k], replies, ops[k], r);
      AnsweredAppend(old(ViewOf(al, file)), ops[..k], envs[..k], replies, ops[k], envs[k]);
      assert ops[..k + 1] == ops[..k] + [ops[k]] && envs[..k + 1] == envs[..k] + [envs[k]];
      replies := replies + [r];
    }
    assert ops[..|ops|] == ops && envs[..|ops|] == envs;
  }

  lemma GenuineAppend(v: View, ops: seq<Op>, replies: seq<Reply>, op: Op, r: Reply)
    requires |ops| == |replies| && AllGenuine(v, ops, replies)
    requires Genuine(Run(v, ops, replies), op, r)
    ensures AllGenuine(v, ops + [op], replies + [r])
    ensures Run(v, ops + [op], replies + [r]) == Step(Run(v, ops, replies), op, r)
  {
    var ops', replies' := ops + [op], replies + [r];
    forall i | 0 <= i < |ops'|
      ensures Genuine(Run(v, ops'[..i], replies'[..i]), ops'[i], replies'[i])
    {
      assert ops'[..i] == ops[..i] && replies'[..i] == replies[..i];
      assert ops[..|ops|] == ops && replies[..|ops|] == replies;
    }
    assert ops'[..|ops|] == ops && replies'[..|ops|] == replies;
  }

  /** Some audit row says that j was granted a. */
  ghost predicate Audited(rows: seq<Event>, j: JID, a: Action) {
    exists acts: seq<Action> :: a in acts && GrantRow(j, acts) in rows
  }

  method Serve(op: Op, al: Allowlist, file: ConfigFile, audit: AuditLog, env: Env) returns (r: Reply)
    requires WellFormed(al.entries)
    modifies al, file, audit
    ensures WellFormed(al.entries)
    ensures Genuine(old(ViewOf(al, file)), op, r) && r == Answer(old(ViewOf(al, file)), op, env)
    ensures ViewOf(al, file) == Step(old(ViewOf(al, file)), op, r)
    ensures forall j, a :: Audited(old(audit.rows), j, a) ==> Audited(audit.rows, j, a)
    ensures forall j, a :: r == Done && Grants(op, j, a) ==> Audited(audit.rows, j, a)
  {
    match op
    case Add(jid, actions) => r := HandleAllowAdd(jid, actions, al, file, audit, env);
    case Remove(jid) => r := HandleAllowRemove(jid, al, file, audit, env);
    case Reload => r := ReloadAllowlist(al, file, audit, env);
    case Edit(c) =>
      file.content := c;
      r := Done;
  }

  /** Memory and disk agree at the end of every session that began in sync, unless
      an edit came after the last call that succeeded; failures anywhere, of the
      audit log or of the file, never break the agreement. */
  lemma {:induction false} SyncKept(v: View, ops: seq<Op>, replies: seq<Reply>)
    requires |ops| == |replies| && AllGenuine(v, ops, replies)
    requires !Dirty(ops, replies, v.disk != Some(v.memory))
    ensures Run(v, ops, replies).disk == Some(Run(v, ops, replies).memory)
  {
    if ops != [] {
      var n := |ops| - 1;
      assert Genuine(Run(v, ops[..n], replies[..n]), ops[n], replies[n]);
      if replies[n] != Done {
        GenuinePrefix(v, ops, replies, n);
        SyncKept(v, ops[..n], replies[..n]);
      }
    }
  }

  lemma GenuinePrefix(v: View, ops: seq<Op>, replies: seq<Reply>, n: nat)
    requires |ops| == |replies| && AllGenuine(v, ops, replies) && n <= |ops|
    ensures AllGenuine(v, ops[..n], replies[..n])
  {
    forall i | 0 <= i < n
      ensures Genuine(Run(v, ops[..n][..i], replies[..n][..i]), ops[..n][i], replies[..n][i])
    {
      assert ops[..n][..i] == ops[..i] && replies[..n][..i] == replies[..i];
    }
  }

  /** Nobody holds a privilege out of nowhere: it was there at the start, or a
      successful add granted it, or some version of the file said so. */
  lemma {:induction false} PrivilegeHasOrigin(v: View, ops: seq<Op>, replies: seq<Reply>, j: JID, a: Action)
    requires |ops| == |replies|
    requires Allows(Run(v, ops, replies).memory, j, a) || OnDisk(Run(v, ops, replies), j, a)
    ensures Allows(v.memory, j, a) || OnDisk(v, j, a)
      || (exists i :: 0 <= i < |ops| && replies[i] == Done && Grants(ops[i], j, a))
      || (exists i :: 0 <= i < |ops| && Wrote(ops[i], j, a))
  {
    if ops != [] {
      var n := |ops| - 1;
      var u := Run(v, ops[..n], replies[..n]);
      StepOrigin(u, ops[n], replies[n], j, a);
      if Allows(u.memory, j, a) || OnDisk(u, j, a) {
        PrivilegeHasOrigin(v, ops[..n], replies[..n], j, a);
        if i :| 0 <= i < n && replies[..n][i] == Done && Grants(ops[..n][i], j, a) {
          assert replies[i] == Done && Grants(ops[i], j, a);
        }
        if i :| 0 <= i < n && Wrote(ops[..n][i], j, a) {
          assert Wrote(ops[i], j, a);
        }
      }
    }
  }

  predicate OnDisk(v: View, j: JID, a: Action) { v.disk.Some? && Allows(v.disk.value, j, a) }

  predicate Wrote(op: Op, j: JID, a: Action) { op.Edit? && Load(op.content).Some? && Allows(Load(op.content).value, j, a) }

  lemma StepOrigin(v: View, op: Op, r: Reply, j: JID, a: Action)
    requires Allows(Step(v, op, r).memory, j, a) || OnDisk(Step(v, op, r), j, a)
    ensures Allows(v.memory, j, a) || OnDisk(v, j, a) || (r == Done && Grants(op, j, a)) || Wrote(op, j, a)
  {
    if op.Add? && Parse(op.jid).Some? && ParseActions(op.actions).Some? {
      GrantedAllows(v.memory, Parse(op.jid).value, Elems(ParseActions(op.actions).value), j, a);
    }
  }
}
