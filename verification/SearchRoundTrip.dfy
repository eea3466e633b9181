/** Printing search parameters and reading them back, exactly. */
module SearchRoundTrip {
  import opened Common
  import opened QueryString
  import opened TextFormats
  import opened SearchParameters

  /** What arrives: wildcards spelled '%', times to the second, and nothing that is not printed. */
  function Normalised(p: Parameters): Parameters {
    Parameters(map k | k in p.texts :: if k == Target then "" else Wild(p.texts[k]),
               p.after.(nanos := 0), p.before.(nanos := 0), p.limit, p.offset, false, "")
  }

  ghost predicate AllClean(p: Parameters) {
    forall k | k in p.texts && k != Target :: Clean(p.texts[k])
  }

  lemma TextIsClean(p: Parameters, k: Key)
    requires IsComplete(p) && AllClean(p) && Shown(p, k)
    ensures Clean(Text(p, k))
  {
    match k
    case After => TimeIsClean(p.after);
    case Before => TimeIsClean(p.before);
    case Limit => WholeReads(p.limit);
    case Offset => WholeReads(p.offset);
    case _ =>
  }

  lemma {:induction false} PairsAreClean(p: Parameters, keys: seq<Key>)
    requires IsComplete(p) && AllClean(p)
    ensures forall kv | kv in PairsOf(p, keys) :: IsName(kv.0) && Clean(kv.1)
  {
    if keys != [] {
      var k := keys[|keys| - 1];
      PairsAreClean(p, keys[..|keys| - 1]);
      NamesAreKeys(k);
      if Shown(p, k) {
        TextIsClean(p, k);
      }
    }
  }

  lemma {:induction false} PairsAreOfKeys(p: Parameters, keys: seq<Key>)
    requires IsComplete(p)
    ensures forall kv | kv in PairsOf(p, keys) :: exists k | k in keys :: Shown(p, k) && kv == (Name(k), Text(p, k))
    ensures forall k | k in keys && Shown(p, k) :: (Name(k), Text(p, k)) in PairsOf(p, keys)
  {
    if keys != [] {
      var init, last := keys[..|keys| - 1], keys[|keys| - 1];
      PairsAreOfKeys(p, init);
      assert keys == init + [last];
      OneMorePair(p, init, last);
    }
  }

  ghost predicate DistinctNames(pairs: seq<(string, string)>) {
    forall i, j | 0 <= i < j < |pairs| :: pairs[i].0 != pairs[j].0
  }

  lemma {:induction false} PairsAreDistinct(p: Parameters, keys: seq<Key>)
    requires IsComplete(p)
    requires forall i, j | 0 <= i < j < |keys| :: keys[i] != keys[j]
    ensures DistinctNames(PairsOf(p, keys))
  {
    if keys != [] {
      var init, last := keys[..|keys| - 1], keys[|keys| - 1];
      PairsAreDistinct(p, init);
      PairsAreOfKeys(p, init);
      assert keys == init + [last];
      OneMorePair(p, init, last);
      forall kv | kv in PairsOf(p, init) ensures kv.0 != Name(last) {
        var k :| k in init && Shown(p, k) && kv == (Name(k), Text(p, k));
        NamesAreKeys(k);
        NamesAreKeys(last);
      }
    }
  }

  /** given holds exactly what p shows, with its wildcards spelled '%'. */
  ghost predicate Reflects(p: Parameters, given: map<Key, string>)
    requires IsComplete(p)
  {
    && (forall k: Key :: k in given <==> Shown(p, k))
    && forall k | k in given :: given[k] == Wild(Text(p, k))
  }

  lemma PrintedKeys()
    ensures forall k: Key :: k in PRINTED <==> k != Target && k != FoundAnything
    ensures forall i, j | 0 <= i < j < |PRINTED| :: PRINTED[i] != PRINTED[j]
  {
  }

  lemma InPairsIff(p: Parameters, keys: seq<Key>, k: Key)
    requires IsComplete(p)
    ensures (Name(k), Text(p, k)) in PairsOf(p, keys) <==> k in keys && Shown(p, k)
  {
    PairsAreOfKeys(p, keys);
    if (Name(k), Text(p, k)) in PairsOf(p, keys) {
      var other :| other in keys && Shown(p, other) && (Name(k), Text(p, k)) == (Name(other), Text(p, other));
      assert KeyOf(Name(k)) == Some(k) && KeyOf(Name(other)) == Some(other) by {
        NamesAreKeys(k);
        NamesAreKeys(other);
      }
    }
  }

  /** What String, which looks at such keys, prints of the parameters: always the kind, both times and the limit, the
      offset unless it is zero, and of the other fields those that ask for something. */
  lemma PrintedIff(p: Parameters, keys: seq<Key>, k: Key)
    requires IsComplete(p) && forall key: Key :: key in keys <==> key != Target && key != FoundAnything
    ensures (Name(k), Text(p, k)) in PairsOf(p, keys)
       <==> || k.Kind? || k.After? || k.Before? || k.Limit? || (k.Offset? && p.offset != 0)
            || (IsIdKey(k) && p.texts[k] != "∞") || ((IsNameKey(k) || k.Status?) && p.texts[k] != "%")
  {
    InPairsIff(p, keys, k);
    ShownIff(p, k);
  }

  lemma ShownIff(p: Parameters, k: Key)
    requires IsComplete(p)
    ensures k != Target && k != FoundAnything && Shown(p, k)
       <==> || k.Kind? || k.After? || k.Before? || k.Limit? || (k.Offset? && p.offset != 0)
            || (IsIdKey(k) && p.texts[k] != "∞") || ((IsNameKey(k) || k.Status?) && p.texts[k] != "%")
  {
  }

  lemma ShownIsInForm(p: Parameters, keys: seq<Key>, k: Key)
    requires IsComplete(p) && DistinctNames(PairsOf(p, keys)) && k in keys && Shown(p, k)
    ensures var form := Form(WildEach(PairsOf(p, keys))); Name(k) in form && form[Name(k)] == [Wild(Text(p, k))]
  {
    var pairs := PairsOf(p, keys);
    PairsAreOfKeys(p, keys);
    var i :| 0 <= i < |pairs| && pairs[i] == (Name(k), Text(p, k));
    FormOfDistinct(WildEach(pairs), i);
  }

  lemma InFormIsShown(p: Parameters, keys: seq<Key>, k: Key)
    requires IsComplete(p) && Name(k) in Form(WildEach(PairsOf(p, keys)))
    ensures k in keys && Shown(p, k)
  {
    var pairs := PairsOf(p, keys);
    PairsAreOfKeys(p, keys);
    var i := FormNames(WildEach(pairs), Name(k));
    assert pairs[i] in pairs;
    var other :| other in keys && Shown(p, other) && pairs[i] == (Name(other), Text(p, other));
    NamesAreKeys(k);
    NamesAreKeys(other);
  }

  lemma PrintedIsReadAsForm(p: Parameters, keys: seq<Key>)
    requires IsComplete(p) && AllClean(p) && PairsOf(p, keys) != []
    ensures ParseQuery(Encode(Join(PairsOf(p, keys)))) == Form(WildEach(PairsOf(p, keys)))
  {
    EncodedQueryIsRead(Join(PairsOf(p, keys)));
    PairsAreClean(p, keys);
    ReadJoined(PairsOf(p, keys));
  }

  lemma FormReflects(p: Parameters, keys: seq<Key>, form: map<string, seq<string>>)
    requires IsComplete(p)
    requires forall i, j | 0 <= i < j < |keys| :: keys[i] != keys[j]
    requires forall k: Key :: k in keys <==> k != Target && k != FoundAnything
    requires form == Form(WildEach(PairsOf(p, keys))) && forall name | name in form :: form[name] != []
    ensures Reflects(p, Given(form))
  {
    PairsAreDistinct(p, keys);
    forall k: Key | Shown(p, k) ensures Name(k) in form && form[Name(k)] == [Wild(Text(p, k))] {
      ShownIsInForm(p, keys, k);
    }
    forall k: Key | Name(k) in form ensures Shown(p, k) {
      InFormIsShown(p, keys, k);
    }
  }

  lemma WildNumeral(n: int)
    ensures ParseWhole(Wild(Whole(n))) == Some(n)
  {
    WholeReads(n);
    WildIsPlain(Whole(n));
  }

  lemma ReflectedText(p: Parameters, given: map<Key, string>, d: Parameters, k: Key)
    requires IsComplete(p) && Reflects(p, given) && d.texts == DefaultTexts() && IsText(k)
    ensures (d.texts + TextsOf(given))[k] == if k == Target then "" else Wild(p.texts[k])
  {
    if k != Target && !Shown(p, k) {
      assert p.texts[k] == Default(k) && Wild(Default(k)) == Default(k);
    }
  }

  lemma ReflectedTexts(p: Parameters, given: map<Key, string>, d: Parameters)
    requires IsComplete(p) && Reflects(p, given) && d.texts == DefaultTexts()
    ensures d.texts + TextsOf(given) == Normalised(p).texts
  {
    var got, wanted := d.texts + TextsOf(given), Normalised(p).texts;
    forall k: Key | IsText(k) ensures k in got && k in wanted && got[k] == wanted[k] {
      ReflectedText(p, given, d, k);
    }
  }

  lemma ReflectedTimes(p: Parameters, given: map<Key, string>)
    requires IsComplete(p) && Reflects(p, given) && Sendable(p.after) && Sendable(p.before)
    ensures After in given && ParseTime(given[After]) == Some(p.after.(nanos := 0))
    ensures Before in given && ParseTime(given[Before]) == Some(p.before.(nanos := 0))
  {
    assert Shown(p, After) && Shown(p, Before);
    TimeSurvivesIffSendable(p.after);
    TimeSurvivesIffSendable(p.before);
  }

  lemma ReflectedLimit(p: Parameters, given: map<Key, string>)
    requires IsComplete(p) && Reflects(p, given)
    ensures Limit in given && ParseWhole(given[Limit]) == Some(p.limit) && WholeOr(given, Limit, 100) == p.limit
  {
    assert Shown(p, Limit);
    WildNumeral(p.limit);
  }

  lemma ReflectedOffset(p: Parameters, given: map<Key, string>)
    requires IsComplete(p) && Reflects(p, given)
    ensures Offset in given ==> ParseWhole(given[Offset]) == Some(p.offset)
    ensures WholeOr(given, Offset, 0) == p.offset
  {
    assert Shown(p, Offset) <==> p.offset != 0;
    WildNumeral(p.offset);
  }

  lemma ReflectedAreAcceptable(p: Parameters, given: map<Key, string>, k: Key)
    requires IsComplete(p) && Reflects(p, given) && Sendable(p.after) && Sendable(p.before) && k in given
    ensures Acceptable(k, given[k])
  {
    match k
    case After => ReflectedTimes(p, given);
    case Before => ReflectedTimes(p, given);
    case Limit => ReflectedLimit(p, given);
    case Offset => ReflectedOffset(p, given);
    case _ =>
  }

  lemma SettingsAre(p: Parameters, given: map<Key, string>, d: Parameters)
    requires d.texts + TextsOf(given) == Normalised(p).texts && d.report == ""
    requires TimeOr(given, After, d.after) == p.after.(nanos := 0)
    requires TimeOr(given, Before, d.before) == p.before.(nanos := 0)
    requires WholeOr(given, Limit, d.limit) == p.limit && WholeOr(given, Offset, d.offset) == p.offset
    requires FoundAnything !in given && !d.foundAnything
    ensures Settings(d, given) == Normalised(p)
  {
  }

  lemma ReflectedTimeValues(p: Parameters, given: map<Key, string>, d: Parameters)
    requires IsComplete(p) && Reflects(p, given) && Sendable(p.after) && Sendable(p.before)
    ensures TimeOr(given, After, d.after) == p.after.(nanos := 0)
    ensures TimeOr(given, Before, d.before) == p.before.(nanos := 0)
  {
    ReflectedTimes(p, given);
  }

  lemma ReflectedNoFlag(p: Parameters, given: map<Key, string>)
    requires IsComplete(p) && Reflects(p, given)
    ensures FoundAnything !in given
  {
    assert !Shown(p, FoundAnything);
  }

  lemma ReflectedSettings(p: Parameters, given: map<Key, string>, d: Parameters)
    requires IsComplete(p) && Reflects(p, given) && Sendable(p.after) && Sendable(p.before)
    requires d == Defaults(d.after, d.before)
    ensures Settings(d, given) == Normalised(p)
  {
    ReflectedTexts(p, given, d);
    ReflectedTimeValues(p, given, d);
    ReflectedLimit(p, given);
    ReflectedOffset(p, given);
    ReflectedNoFlag(p, given);
    SettingsAre(p, given, d);
  }

  lemma ReflectedAreSendable(p: Parameters, given: map<Key, string>)
    requires IsComplete(p) && Reflects(p, given)
    requires forall k | k in given :: Acceptable(k, given[k])
    ensures Sendable(p.after) && Sendable(p.before)
  {
    TimeSurvivesIffSendable(p.after);
    TimeSurvivesIffSendable(p.before);
    assert Shown(p, After) && Shown(p, Before);
  }

  lemma WildOfUnclean(s: string)
    requires Clean(Wild(s))
    ensures Clean(s)
  {
    forall c | c in s ensures !IsSeparator(c) {
      var i :| 0 <= i < |s| && s[i] == c;
      assert Wild(s)[i] in Wild(s);
    }
  }

  ghost predicate FormIsClean(form: map<string, seq<string>>) {
    forall name | name in form :: form[name] != [] && forall v | v in form[name] :: Clean(v)
  }

  lemma ReadTextsAreClean(p: Parameters, form: map<string, seq<string>>, d: Parameters)
    requires IsComplete(p) && FormIsClean(form)
    requires forall k | k in d.texts :: Clean(d.texts[k])
    requires d.texts + TextsOf(Given(form)) == Normalised(p).texts
    ensures AllClean(p)
  {
    var got, given := d.texts + TextsOf(Given(form)), Given(form);
    forall k | k in given ensures Clean(given[k]) {
      assert form[Name(k)][0] in form[Name(k)];
    }
    forall k | k in p.texts && k != Target ensures Clean(p.texts[k]) {
      assert k in got && got[k] == Wild(p.texts[k]);
      WildOfUnclean(p.texts[k]);
    }
  }

  lemma ReadsReflection(p: Parameters, form: map<string, seq<string>>, d: Parameters)
    requires IsComplete(p) && FormIsClean(form) && Reflects(p, Given(form)) && d == Defaults(d.after, d.before)
    ensures ReadForm(form, d) == if Sendable(p.after) && Sendable(p.before) then Some(Normalised(p)) else None
  {
    var given := Given(form);
    if Sendable(p.after) && Sendable(p.before) {
      forall k | k in given ensures Acceptable(k, given[k]) {
        ReflectedAreAcceptable(p, given, k);
      }
      ReflectedSettings(p, given, d);
    } else if forall k | k in given :: Acceptable(k, given[k]) {
      ReflectedAreSendable(p, given);
    }
  }

  lemma CleanIsRead(p: Parameters, keys: seq<Key>, form: map<string, seq<string>>, d: Parameters)
    requires IsComplete(p) && d == Defaults(d.after, d.before) && AllClean(p)
    requires forall i, j | 0 <= i < j < |keys| :: keys[i] != keys[j]
    requires forall k: Key :: k in keys <==> k != Target && k != FoundAnything
    requires form == ParseQuery(Encode(Join(PairsOf(p, keys)))) && FormIsClean(form)
    ensures ReadForm(form, d) == if Sendable(p.after) && Sendable(p.before) then Some(Normalised(p)) else None
  {
    assert PairsOf(p, keys) != [] by {
      PairsAreOfKeys(p, keys);
      assert Shown(p, Limit) && Limit in keys;
    }
    PrintedIsReadAsForm(p, keys);
    FormReflects(p, keys, form);
    ReadsReflection(p, form, d);
  }

  lemma DefaultTextsAreClean()
    ensures forall k | k in DefaultTexts() :: Clean(DefaultTexts()[k])
  {
    forall k | k in DefaultTexts() ensures Clean(DefaultTexts()[k]) {
      assert Default(k) in {NO_ID, ANY, "action", ""};
    }
  }

  lemma ReadIsClean(p: Parameters, form: map<string, seq<string>>, d: Parameters)
    requires IsComplete(p) && d == Defaults(d.after, d.before) && FormIsClean(form)
    requires ReadForm(form, d) == Some(Normalised(p))
    ensures AllClean(p)
  {
    DefaultTextsAreClean();
    assert Settings(d, Given(form)).texts == Normalised(p).texts;
    ReadTextsAreClean(p, form, d);
  }

  /** For every set of parameters: what String prints is read back, up to normalisation, exactly when no
      printed field contains '&' or ';' and both times can be sent. */
  lemma RoundTripIff(p: Parameters, after: Time, before: Time)
    requires IsComplete(p)
    ensures FormIsClean(ParseQuery(Printed(p)))
    ensures ReadForm(ParseQuery(Printed(p)), Defaults(after, before)) == Some(Normalised(p))
       <==> AllClean(p) && Sendable(p.after) && Sendable(p.before)
    ensures (AllClean(p) && !(Sendable(p.after) && Sendable(p.before)) ==>
      ReadForm(ParseQuery(Printed(p)), Defaults(after, before)) == None)
  {
    PrintedKeys();
    RoundTripOfKeys(p, PRINTED, ParseQuery(Printed(p)), Defaults(after, before));
  }

  lemma RoundTripOfKeys(p: Parameters, keys: seq<Key>, form: map<string, seq<string>>, d: Parameters)
    requires IsComplete(p) && d == Defaults(d.after, d.before)
    requires forall i, j | 0 <= i < j < |keys| :: keys[i] != keys[j]
    requires forall k: Key :: k in keys <==> k != Target && k != FoundAnything
    requires form == ParseQuery(Encode(Join(PairsOf(p, keys))))
    ensures FormIsClean(form)
    ensures ReadForm(form, d) == Some(Normalised(p)) <==> AllClean(p) && Sendable(p.after) && Sendable(p.before)
    ensures AllClean(p) && !(Sendable(p.after) && Sendable(p.before)) ==> ReadForm(form, d) == None
  {
    EncodedQueryReadsClean(Join(PairsOf(p, keys)));
    if AllClean(p) {
      CleanIsRead(p, keys, form, d);
    } else if ReadForm(form, d) == Some(Normalised(p)) {
      ReadIsClean(p, form, d);
    }
  }

  lemma DefaultsAreClean(after: Time, before: Time)
    requires IsTime(after) && IsTime(before)
    ensures IsComplete(Defaults(after, before)) && AllClean(Defaults(after, before))
  {
    DefaultTextsAreClean();
  }

  /** A search up to some moment in a zone east of Greenwich is refused, however plain its other fields. */
  lemma EasternTimeIsRefused(now: Time, later: Time)
    requires IsTime(now) && IsTime(later) && later.zone > 0
    ensures FormIsClean(ParseQuery(Printed(Defaults(now, later))))
    ensures ReadForm(ParseQuery(Printed(Defaults(now, later))), Defaults(now, now)) == None
  {
    DefaultsAreClean(now, later);
    RoundTripIff(Defaults(now, later), now, now);
  }
}
