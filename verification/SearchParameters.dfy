/** The search parameters as the client prints them and as the API reads them back. */
module SearchParameters {
  import opened Common
  import opened QueryString
  import opened TextFormats

  const NO_ID := "∞"
  const ANY := "%"
  const WINDOW_HOURS: nat := 39600

  datatype Key =
    | Kind | After | Before | ActionId | ActionName | AgentId | AgentName | AgentVersion | CommandId
    | InvestigatorId | InvestigatorName | LoaderId | LoaderName | ManifestName | ManifestId
    | Limit | Offset | Status | ThreatFamily | FoundAnything | Target

  /** The kind of field behind a key. */
  predicate IsText(k: Key) {
    !k.After? && !k.Before? && !k.Limit? && !k.Offset? && !k.FoundAnything?
  }

  /** texts holds the string fields. */
  datatype Parameters = Parameters(
    texts: map<Key, string>, after: Time, before: Time, limit: int, offset: int, foundAnything: bool, report: string)

  predicate IsComplete(p: Parameters) {
    IsTime(p.after) && IsTime(p.before) && forall k: Key :: k in p.texts <==> IsText(k)
  }

  function Default(k: Key): string {
    match k
    case ActionId | AgentId | CommandId | InvestigatorId | LoaderId | ManifestId => NO_ID
    case Kind => "action"
    case Target => ""
    case _ => ANY
  }

  function DefaultTexts(): map<Key, string> {
    map k: Key | IsText(k) :: Default(k)
  }

  /** NewParameters, at a moment whose window runs from after to before. */
  function Defaults(after: Time, before: Time): Parameters {
    Parameters(DefaultTexts(), after, before, 100, 0, false, "")
  }

  function Name(k: Key): (name: string) {
    match k
    case Kind => "type"
    case After => "after"
    case Before => "before"
    case ActionId => "actionid"
    case ActionName => "actionname"
    case AgentId => "agentid"
    case AgentName => "agentname"
    case AgentVersion => "agentversion"
    case CommandId => "commandid"
    case InvestigatorId => "investigatorid"
    case InvestigatorName => "investigatorname"
    case LoaderId => "loaderid"
    case LoaderName => "loadername"
    case ManifestName => "manifestname"
    case ManifestId => "manifestid"
    case Limit => "limit"
    case Offset => "offset"
    case Status => "status"
    case ThreatFamily => "threatfamily"
    case FoundAnything => "foundanything"
    case Target => "target"
  }

  /** The cases of the switch, in three groups. */
  function IdKeyOf(name: string): (k: Option<Key>)
    ensures k.Some? ==> Name(k.value) == name
  {
    if name == "actionid" then Some(ActionId)
    else if name == "agentid" then Some(AgentId)
    else if name == "commandid" then Some(CommandId)
    else if name == "investigatorid" then Some(InvestigatorId)
    else if name == "loaderid" then Some(LoaderId)
    else if name == "manifestid" then Some(ManifestId)
    else None
  }

  function NameKeyOf(name: string): (k: Option<Key>)
    ensures k.Some? ==> Name(k.value) == name
  {
    if name == "actionname" then Some(ActionName)
    else if name == "agentname" then Some(AgentName)
    else if name == "agentversion" then Some(AgentVersion)
    else if name == "investigatorname" then Some(InvestigatorName)
    else if name == "loadername" then Some(LoaderName)
    else if name == "manifestname" then Some(ManifestName)
    else if name == "threatfamily" then Some(ThreatFamily)
    else None
  }

  function OtherKeyOf(name: string): (k: Option<Key>)
    ensures k.Some? ==> Name(k.value) == name
  {
    if name == "after" then Some(After)
    else if name == "before" then Some(Before)
    else if name == "foundanything" then Some(FoundAnything)
    else if name == "limit" then Some(Limit)
    else if name == "offset" then Some(Offset)
    else if name == "status" then Some(Status)
    else if name == "target" then Some(Target)
    else if name == "type" then Some(Kind)
    else None
  }

  function KeyOf(name: string): (k: Option<Key>)
    ensures k.Some? ==> Name(k.value) == name
  {
    if IdKeyOf(name).Some? then IdKeyOf(name)
    else if NameKeyOf(name).Some? then NameKeyOf(name)
    else OtherKeyOf(name)
  }

  predicate IsIdKey(k: Key) {
    k.ActionId? || k.AgentId? || k.CommandId? || k.InvestigatorId? || k.LoaderId? || k.ManifestId?
  }

  predicate IsNameKey(k: Key) {
    || k.ActionName? || k.AgentName? || k.AgentVersion? || k.InvestigatorName? || k.LoaderName? || k.ManifestName?
    || k.ThreatFamily?
  }

  lemma IdNames(k: Key)
    requires IsIdKey(k)
    ensures KeyOf(Name(k)) == Some(k) && IsName(Name(k))
  {
  }

  lemma NameNames(k: Key)
    requires IsNameKey(k)
    ensures KeyOf(Name(k)) == Some(k) && IsName(Name(k))
  {
  }

  predicate IsValueKey(k: Key) {
    k.After? || k.Before? || k.Limit? || k.Offset?
  }

  lemma ValueNames(k: Key)
    requires IsValueKey(k)
    ensures KeyOf(Name(k)) == Some(k) && IsName(Name(k))
  {
  }

  lemma OtherNames(k: Key)
    requires !IsIdKey(k) && !IsNameKey(k) && !IsValueKey(k)
    ensures KeyOf(Name(k)) == Some(k) && IsName(Name(k))
  {
  }

  lemma NamesAreKeys(k: Key)
    ensures KeyOf(Name(k)) == Some(k) && IsName(Name(k))
  {
    if IsIdKey(k) {
      IdNames(k);
    } else if IsNameKey(k) {
      NameNames(k);
    } else if IsValueKey(k) {
      ValueNames(k);
    } else {
      OtherNames(k);
    }
  }

  /** The names under which the fields travel. */
  lemma WireNames()
    ensures Name(Kind) == "type" && Name(After) == "after" && Name(Before) == "before"
    ensures Name(ActionId) == "actionid" && Name(ActionName) == "actionname" && Name(AgentId) == "agentid"
    ensures Name(AgentName) == "agentname" && Name(AgentVersion) == "agentversion" && Name(CommandId) == "commandid"
    ensures Name(InvestigatorId) == "investigatorid" && Name(InvestigatorName) == "investigatorname"
    ensures Name(LoaderId) == "loaderid"
    ensures Name(LoaderName) == "loadername" && Name(ManifestName) == "manifestname" && Name(ManifestId) == "manifestid"
    ensures Name(Limit) == "limit" && Name(Offset) == "offset" && Name(Status) == "status"
    ensures Name(ThreatFamily) == "threatfamily" && Name(FoundAnything) == "foundanything" && Name(Target) == "target"
  {
  }

  /** What a caller starts from: nothing asked for, a hundred rows from the first. */
  lemma DefaultsAre(after: Time, before: Time)
    requires IsTime(after) && IsTime(before)
    ensures IsComplete(Defaults(after, before))
    ensures Defaults(after, before).texts == map[
      Kind := "action", ActionId := "∞", ActionName := "%", AgentId := "∞", AgentName := "%", AgentVersion := "%",
      CommandId := "∞", InvestigatorId := "∞", InvestigatorName := "%", LoaderId := "∞", LoaderName := "%",
      ManifestName := "%", ManifestId := "∞", Status := "%", ThreatFamily := "%", Target := ""]
    ensures Defaults(after, before) == Parameters(Defaults(after, before).texts, after, before, 100, 0, false, "")
  {
  }

  // ----- printing -----

  /** The keys in the order String looks at them. */
  const PRINTED: seq<Key> := [
    Kind, After, Before, ActionId, ActionName, AgentId, AgentName, AgentVersion, CommandId, InvestigatorId,
    InvestigatorName, LoaderId, LoaderName, ManifestName, ManifestId, Limit, Offset, Status, ThreatFamily]

  function Text(p: Parameters, k: Key): string
    requires IsComplete(p)
  {
    match k
    case After => FormatTime(p.after)
    case Before => FormatTime(p.before)
    case Limit => Whole(p.limit)
    case Offset => Whole(p.offset)
    case FoundAnything => ""
    case _ => p.texts[k]
  }

  predicate Shown(p: Parameters, k: Key)
    requires IsComplete(p)
  {
    match k
    case Kind | After | Before | Limit => true
    case Offset => p.offset != 0
    case FoundAnything | Target => false
    case _ => p.texts[k] != Default(k)
  }

  function PairsOf(p: Parameters, keys: seq<Key>): seq<(string, string)>
    requires IsComplete(p)
  {
    if keys == [] then []
    else
      var init, k := keys[..|keys| - 1], keys[|keys| - 1];
      PairsOf(p, init) + if Shown(p, k) then [(Name(k), Text(p, k))] else []
  }

  function Printed(p: Parameters): string
    requires IsComplete(p)
  {
    Encode(Join(PairsOf(p, PRINTED)))
  }

  lemma OneMorePair(p: Parameters, done: seq<Key>, k: Key)
    requires IsComplete(p)
    ensures PairsOf(p, done + [k])
         == if Shown(p, k) then PairsOf(p, done) + [(Name(k), Text(p, k))] else PairsOf(p, done)
  {
    assert (done + [k])[..|done|] == done;
  }

  /** The blocks that extend the query differ only in the key: they are one loop over the keys. */
  method JoinFields(p: Parameters, keys: seq<Key>) returns (query: string)
    requires IsComplete(p) && keys != [] && keys[0] == Kind
    ensures query == Join(PairsOf(p, keys))
  {
    query := "";
    for i := 0 to |keys|
      invariant query == Join(PairsOf(p, keys[..i]))
      invariant PairsOf(p, keys[..i]) == [] <==> i == 0
    {
      var k := keys[i];
      ghost var pairs := PairsOf(p, keys[..i]);
      assert keys[..i + 1] == keys[..i] + [k];
      OneMorePair(p, keys[..i], k);
      if Shown(p, k) {
        assert (pairs + [(Name(k), Text(p, k))])[..|pairs|] == pairs;
        query := (if i == 0 then "" else query + "&") + Name(k) + "=" + Text(p, k);
      }
    }
    assert keys[..|keys|] == keys;
  }

  method String(p: Parameters) returns (query: string)
    requires IsComplete(p)
    ensures query == Printed(p)
  {
    query := JoinFields(p, PRINTED);
    query := ReplaceAll(query, '%');
    query := ReplaceAll(query, '*');
    query := ReplaceAll(query, '+');
  }

  // ----- parsing -----

  predicate SameLetters(text: string, word: string)
    requires forall c | c in word :: 'a' <= c <= 'z'
  {
    |text| == |word| && forall i | 0 <= i < |word| ::
      text[i] == word[i] || text[i] as int == word[i] as int - 32
  }

  lemma FlagSpellings()
    ensures SameLetters("true", "true") && SameLetters("TRUE", "true") && SameLetters("fAlse", "false")
    ensures !SameLetters("tru", "true") && !SameLetters("yes", "true") && !SameLetters("", "false")
  {
  }

  predicate Acceptable(k: Key, text: string) {
    match k
    case After | Before => ParseTime(text).Some?
    case Limit | Offset => ParseWhole(text).Some?
    case FoundAnything => SameLetters(text, "true") || SameLetters(text, "false")
    case _ => true
  }

  function TimeOr(given: map<Key, string>, k: Key, other: Time): Time {
    if k in given && ParseTime(given[k]).Some? then ParseTime(given[k]).value else other
  }

  function WholeOr(given: map<Key, string>, k: Key, other: int): int {
    if k in given && ParseWhole(given[k]).Some? then ParseWhole(given[k]).value else other
  }

  function TextsOf(given: map<Key, string>): map<Key, string> {
    map k | k in given && IsText(k) :: given[k]
  }

  lemma OneMoreText(given: map<Key, string>, k: Key, text: string)
    ensures TextsOf(given[k := text]) == if IsText(k) then TextsOf(given)[k := text] else TextsOf(given)
  {
  }

  /** The parameters d, overridden by the texts given. */
  function Settings(d: Parameters, given: map<Key, string>): Parameters {
    Parameters(
      d.texts + TextsOf(given),
      TimeOr(given, After, d.after), TimeOr(given, Before, d.before),
      WholeOr(given, Limit, d.limit), WholeOr(given, Offset, d.offset),
      if FoundAnything in given then SameLetters(given[FoundAnything], "true") else d.foundAnything,
      d.report)
  }

  /** The first value under each name the server knows. */
  function Given(form: map<string, seq<string>>): map<Key, string>
    requires forall name | name in form :: form[name] != []
  {
    map k: Key | Name(k) in form :: form[Name(k)][0]
  }

  function ReadForm(form: map<string, seq<string>>, d: Parameters): Option<Parameters>
    requires forall name | name in form :: form[name] != []
  {
    var given := Given(form);
    if forall k | k in given :: Acceptable(k, given[k]) then Some(Settings(d, given)) else None
  }

  /** The flag that is never printed: set by "true" in any case, cleared by "false". */
  lemma FlagIsRead(form: map<string, seq<string>>, d: Parameters)
    requires forall name | name in form :: form[name] != []
    requires ReadForm(form, d).Some?
    ensures ReadForm(form, d).value.foundAnything
         == if "foundanything" in form then SameLetters(form["foundanything"][0], "true") else d.foundAnything
  {
    assert Name(FoundAnything) == "foundanything";
  }

  lemma MergeThenUpdate(a: map<Key, string>, b: map<Key, string>, k: Key, v: string)
    ensures a + b[k := v] == (a + b)[k := v]
  {
  }

  lemma OneMoreString(d: Parameters, seen: map<Key, string>, k: Key, text: string)
    requires IsText(k)
    ensures var p := Settings(d, seen); Settings(d, seen[k := text]) == p.(texts := p.texts[k := text])
  {
    OneMoreText(seen, k, text);
    MergeThenUpdate(d.texts, TextsOf(seen), k, text);
  }

  lemma OneMoreTime(d: Parameters, seen: map<Key, string>, k: Key, text: string)
    requires (k.After? || k.Before?) && ParseTime(text).Some?
    ensures var p, t := Settings(d, seen), ParseTime(text).value;
      Settings(d, seen[k := text]) == if k.After? then p.(after := t) else p.(before := t)
  {
    OneMoreText(seen, k, text);
  }

  lemma OneMoreWhole(d: Parameters, seen: map<Key, string>, k: Key, text: string)
    requires (k.Limit? || k.Offset?) && ParseWhole(text).Some?
    ensures var p, n := Settings(d, seen), ParseWhole(text).value;
      Settings(d, seen[k := text]) == if k.Limit? then p.(limit := n) else p.(offset := n)
  {
    OneMoreText(seen, k, text);
  }

  lemma OneMoreFlag(d: Parameters, seen: map<Key, string>, text: string)
    ensures Settings(d, seen[FoundAnything := text]) == Settings(d, seen).(foundAnything := SameLetters(text, "true"))
  {
    OneMoreText(seen, FoundAnything, text);
  }

  method AssignTime(p: Parameters, k: Key, text: string, ghost d: Parameters, ghost seen: map<Key, string>)
    returns (r: Result<Parameters>)
    requires p == Settings(d, seen) && (k.After? || k.Before?)
    ensures r.Ok? <==> Acceptable(k, text)
    ensures r.Ok? ==> r.value == Settings(d, seen[k := text])
  {
    match ParseTime(text) {
      case None => return Err("date not in RFC3339 format");
      case Some(t) =>
        OneMoreTime(d, seen, k, text);
        return Ok(if k.After? then p.(after := t) else p.(before := t));
    }
  }

  method AssignWhole(p: Parameters, k: Key, text: string, ghost d: Parameters, ghost seen: map<Key, string>)
    returns (r: Result<Parameters>)
    requires p == Settings(d, seen) && (k.Limit? || k.Offset?)
    ensures r.Ok? <==> Acceptable(k, text)
    ensures r.Ok? ==> r.value == Settings(d, seen[k := text])
  {
    match ParseWhole(text) {
      case None => return Err("invalid number");
      case Some(n) =>
        OneMoreWhole(d, seen, k, text);
        return Ok(if k.Limit? then p.(limit := n) else p.(offset := n));
    }
  }

  /** One case of the switch: if p is d overridden by the texts seen so far, the result is d overridden by
      those and this one, unless the text is one the key cannot take. */
  method Assign(p: Parameters, k: Key, text: string, ghost d: Parameters, ghost seen: map<Key, string>)
    returns (r: Result<Parameters>)
    requires p == Settings(d, seen)
    ensures r.Ok? <==> Acceptable(k, text)
    ensures r.Ok? ==> r.value == Settings(d, seen[k := text])
  {
    match k {
      case After | Before =>
        r := AssignTime(p, k, text, d, seen);
      case Limit | Offset =>
        r := AssignWhole(p, k, text, d, seen);
      case FoundAnything =>
        OneMoreFlag(d, seen, text);
        if SameLetters(text, "true") {
          return Ok(p.(foundAnything := true));
        } else if SameLetters(text, "false") {
          return Ok(p.(foundAnything := false));
        } else {
          return Err("foundanything parameter must be true or false");
        }
      case _ =>
        OneMoreString(d, seen, k, text);
        return Ok(p.(texts := p.texts[k := text]));
    }
  }

  /** seen holds the first value of each known name among names. */
  ghost predicate IsSeen(form: map<string, seq<string>>, names: seq<string>, seen: map<Key, string>) {
    && (forall k: Key :: k in seen <==> Name(k) in names)
    && (forall k | k in seen :: Name(k) in form && form[Name(k)] != [] && seen[k] == form[Name(k)][0])
  }

  lemma SeeMore(form: map<string, seq<string>>, names: seq<string>, name: string, seen: map<Key, string>)
    requires IsSeen(form, names, seen) && name in form && form[name] != []
    ensures match KeyOf(name)
      case None => IsSeen(form, names + [name], seen)
      case Some(k) => IsSeen(form, names + [name], seen[k := form[name][0]])
  {
    forall k: Key ensures Name(k) == name <==> KeyOf(name) == Some(k) {
      NamesAreKeys(k);
    }
  }

  lemma SeenAll(form: map<string, seq<string>>, names: seq<string>, seen: map<Key, string>)
    requires forall name | name in form :: form[name] != []
    requires IsSeen(form, names, seen) && forall name :: name in names <==> name in form
    ensures seen == Given(form)
  {
  }

  lemma BadValue(form: map<string, seq<string>>, d: Parameters, k: Key)
    requires forall name | name in form :: form[name] != []
    requires Name(k) in form && !Acceptable(k, form[Name(k)][0])
    ensures ReadForm(form, d).None?
  {
    assert k in Given(form) && Given(form)[k] == form[Name(k)][0];
  }

  /** p is what reading names has made of d. */
  ghost predicate ReadSoFar(form: map<string, seq<string>>, names: seq<string>, d: Parameters, seen: map<Key, string>,
                            p: Parameters)
  {
    && p == Settings(d, seen) && IsSeen(form, names, seen)
    && forall k | k in seen :: Acceptable(k, seen[k])
  }

  lemma ReadMoreOf(form: map<string, seq<string>>, names: seq<string>, name: string, d: Parameters,
                   seen: map<Key, string>, p: Parameters)
    requires ReadSoFar(form, names, d, seen, p) && name in form && form[name] != []
    ensures match KeyOf(name)
      case None => ReadSoFar(form, names + [name], d, seen, p)
      case Some(k) =>
        Acceptable(k, form[name][0]) ==>
          ReadSoFar(form, names + [name], d, seen[k := form[name][0]], Settings(d, seen[k := form[name][0]]))
  {
    SeeMore(form, names, name, seen);
  }

  lemma FlagSeen(form: map<string, seq<string>>, names: seq<string>, seen: map<Key, string>)
    requires IsSeen(form, names, seen) && forall name :: name in names <==> name in form
    ensures FoundAnything in seen <==> "foundanything" in form
  {
    assert Name(FoundAnything) == "foundanything";
  }

  lemma ReadAll(form: map<string, seq<string>>, names: seq<string>, d: Parameters, seen: map<Key, string>,
                p: Parameters)
    requires forall name | name in form :: form[name] != []
    requires ReadSoFar(form, names, d, seen, p) && forall name :: name in names <==> name in form
    ensures ReadForm(form, d) == Some(p) && (FoundAnything in seen <==> "foundanything" in form)
  {
    FlagSeen(form, names, seen);
    assert seen == Given(form) by {
      SeenAll(form, names, seen);
    }
  }

  /** order is the order in which ranging over the form happens to visit its names. */
  method ParseSearchParameters(form: map<string, seq<string>>, order: seq<string>, d: Parameters)
    returns (r: Result<Parameters>, filterFound: bool)
    requires forall name | name in form :: form[name] != []
    requires forall name :: name in order <==> name in form
    ensures r.Ok? <==> ReadForm(form, d).Some?
    ensures r.Ok? ==> r.value == ReadForm(form, d).value && filterFound == ("foundanything" in form)
  {
    var p := d;
    filterFound := false;
    ghost var seen: map<Key, string> := map[];
    SettingNone(d);
    for i := 0 to |order|
      invariant ReadSoFar(form, order[..i], d, seen, p)
      invariant filterFound <==> FoundAnything in seen
    {
      var name := order[i];
      assert name in order && order[..i + 1] == order[..i] + [name];
      ReadMoreOf(form, order[..i], name, d, seen, p);
      match KeyOf(name) {
        case None =>
        case Some(k) =>
          var outcome := Assign(p, k, form[name][0], d, seen);
          if outcome.Err? {
            BadValue(form, d, k);
            return Err(outcome.message), filterFound;
          }
          p := outcome.value;
          seen := seen[k := form[name][0]];
          filterFound := filterFound || k == FoundAnything;
      }
    }
    assert order[..|order|] == order;
    ReadAll(form, order, d, seen, p);
    r := Ok(p);
  }

  lemma SettingNone(d: Parameters)
    ensures Settings(d, map[]) == d
  {
    var none: map<Key, string> := map[];
    assert TextsOf(none) == none && d.texts + none == d.texts;
  }
}
