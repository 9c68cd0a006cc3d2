/** The part of ConfigParser.SafeConfigParser the interpreter uses:
    named sections, each an insertion-ordered dictionary from option to
    value. Option names go through optionxform, which lower-cases them;
    section names are kept as written. */
module ConfigStore {
  import opened Errors
  import opened Text

  /** One section: its (option, value) pairs in insertion order. */
  type Section = seq<(string, string)>

  type Store = map<string, Section>

  /** The section that holds the data threaded across commands. */
  const WorkOrder: string := "workOrder"

  /** The value stored for option in sec, if any. */
  function Find(sec: Section, option: string): Option<string>
    decreases |sec|
  {
    if sec == [] then None
    else if sec[0].0 == option then Some(sec[0].1)
    else Find(sec[1..], option)
  }

  /** Find fails exactly when no pair has the option, and what it finds
      is the value of a pair with that option. */
  lemma {:induction false} FindSpec(sec: Section, option: string)
    ensures Find(sec, option).None? <==> forall i :: 0 <= i < |sec| ==> sec[i].0 != option
    ensures Find(sec, option).Some? ==>
              exists i :: 0 <= i < |sec| && sec[i] == (option, Find(sec, option).value)
    decreases |sec|
  {
    if sec != [] && sec[0].0 != option {
      FindSpec(sec[1..], option);
      var r := Find(sec, option);
      assert forall i :: 1 <= i < |sec| ==> sec[i] == sec[1..][i - 1];
      if r.Some? {
        var i :| 0 <= i < |sec[1..]| && sec[1..][i] == (option, r.value);
        assert sec[i + 1] == (option, r.value);
      }
    }
  }

  /** No option occurs twice in a section. */
  predicate DistinctOptions(sec: Section) {
    forall i, j :: 0 <= i < j < |sec| ==> sec[i].0 != sec[j].0
  }

  /** The options of a section, in order. */
  function Options(sec: Section): (r: seq<string>)
    ensures |r| == |sec| && forall i :: 0 <= i < |sec| ==> r[i] == sec[i].0
  {
    seq(|sec|, i requires 0 <= i < |sec| => sec[i].0)
  }

  /** The values of a section, in order. */
  function Values(sec: Section): (r: seq<string>)
    ensures |r| == |sec| && forall i :: 0 <= i < |sec| ==> r[i] == sec[i].1
  {
    seq(|sec|, i requires 0 <= i < |sec| => sec[i].1)
  }

  /** Assignment to an ordered dictionary: an option already present keeps
      its place and takes the new value; a new option goes at the end
      (UpsertOrder). */
  function Upsert(sec: Section, option: string, value: string): (r: Section)
    ensures Find(r, option) == Some(value)
    decreases |sec|
  {
    if sec == [] then [(option, value)]
    else if sec[0].0 == option then [(option, value)] + sec[1..]
    else
      var r := [sec[0]] + Upsert(sec[1..], option, value);
      assert r[1..] == Upsert(sec[1..], option, value);
      r
  }

  /** Upsert leaves what every other option finds unchanged. */
  lemma {:induction false} UpsertOther(sec: Section, option: string, value: string, o: string)
    requires o != option
    ensures Find(Upsert(sec, option, value), o) == Find(sec, o)
    decreases |sec|
  {
    if sec != [] && sec[0].0 != option {
      UpsertOther(sec[1..], option, value, o);
      assert Upsert(sec, option, value)[1..] == Upsert(sec[1..], option, value);
    } else if sec != [] {
      assert Upsert(sec, option, value)[1..] == sec[1..];
    }
  }

  lemma {:induction false} UpsertOrder(sec: Section, option: string, value: string)
    ensures Find(sec, option).None? ==> Upsert(sec, option, value) == sec + [(option, value)]
    ensures Find(sec, option).Some? ==> Options(Upsert(sec, option, value)) == Options(sec)
  {
    if sec != [] && sec[0].0 != option {
      UpsertOrder(sec[1..], option, value);
      var tail := Upsert(sec[1..], option, value);
      var r := Upsert(sec, option, value);
      assert r == [sec[0]] + tail;
      if Find(sec, option).None? {
        assert sec == [sec[0]] + sec[1..];
      } else {
        assert forall i :: 1 <= i < |r| ==> r[i].0 == tail[i - 1].0 == sec[1..][i - 1].0;
      }
    }
  }

  lemma {:induction false} UpsertDistinct(sec: Section, option: string, value: string)
    requires DistinctOptions(sec)
    ensures DistinctOptions(Upsert(sec, option, value))
  {
    if sec != [] && sec[0].0 != option {
      var tail := Upsert(sec[1..], option, value);
      var r := Upsert(sec, option, value);
      assert r == [sec[0]] + tail;
      assert DistinctOptions(sec[1..]) by {
        forall i, j | 0 <= i < j < |sec[1..]| ensures sec[1..][i].0 != sec[1..][j].0 {
          assert sec[1..][i] == sec[i + 1] && sec[1..][j] == sec[j + 1];
        }
      }
      UpsertDistinct(sec[1..], option, value);
      assert Find(sec[1..], sec[0].0).None? by {
        forall i | 0 <= i < |sec[1..]| ensures sec[1..][i].0 != sec[0].0 {
          assert sec[1..][i] == sec[i + 1];
        }
        FindSpec(sec[1..], sec[0].0);
      }
      UpsertOther(sec[1..], option, value, sec[0].0);
      FindSpec(tail, sec[0].0);
      forall i, j | 0 <= i < j < |r| ensures r[i].0 != r[j].0 {
        if i == 0 {
          assert r[j] == tail[j - 1];
        } else {
          assert r[i] == tail[i - 1] && r[j] == tail[j - 1];
        }
      }
    }
  }

  /** Every section has distinct, lower-case option names: what
      ConfigParser's dictionaries and optionxform guarantee. */
  predicate WellFormed(store: Store) {
    forall s :: s in store ==> DistinctOptions(store[s]) && LowerOptions(store[s])
  }

  predicate LowerOptions(sec: Section) {
    forall i :: 0 <= i < |sec| ==> Lower(sec[i].0) == sec[i].0
  }

  /** config.get(section, option) */
  function Get(store: Store, section: string, option: string): (r: Result<string>)
    ensures section !in store ==> r == Err(NoSection(section))
    ensures section in store && Find(store[section], Lower(option)).None? ==>
              r == Err(NoOption(section, Lower(option)))
    ensures r.Ok? ==> section in store && Find(store[section], Lower(option)) == Some(r.value)
  {
    if section !in store then Err(NoSection(section))
    else match Find(store[section], Lower(option))
      case None => Err(NoOption(section, Lower(option)))
      case Some(v) => Ok(v)
  }

  /** config.has_option(section, option): false for a missing section. */
  function HasOption(store: Store, section: string, option: string): (r: bool)
    ensures r <==> Get(store, section, option).Ok?
  {
    section in store && Find(store[section], Lower(option)).Some?
  }

  /** config.set(section, option, value): fails on a missing section. */
  function Set(store: Store, section: string, option: string, value: string): (r: Result<Store>)
    ensures section !in store <==> r == Err(NoSection(section))
    ensures r.Ok? ==> r.value.Keys == store.Keys
    ensures r.Ok? ==> forall s :: s in store && s != section ==> r.value[s] == store[s]
    ensures r.Ok? ==> r.value[section] == Upsert(store[section], Lower(option), value)
  {
    if section !in store then Err(NoSection(section))
    else Ok(store[section := Upsert(store[section], Lower(option), value)])
  }

  /** config.add_section(name): the name 'default' in any letter case is
      refused, and so is a section that already exists. */
  function AddSection(store: Store, name: string): (r: Result<Store>)
    ensures Lower(name) == "default" ==> r == Err(InvalidSectionName(name))
    ensures Lower(name) != "default" && name in store ==> r == Err(DuplicateSection(name))
    ensures r.Ok? <==> Lower(name) != "default" && name !in store
    ensures r.Ok? ==> r.value == store[name := []]
  {
    if Lower(name) == "default" then Err(InvalidSectionName(name))
    else if name in store then Err(DuplicateSection(name))
    else Ok(store[name := []])
  }

  /** config.items(section) */
  function Items(store: Store, section: string): (r: Result<Section>)
    ensures r.Ok? <==> section in store
    ensures r.Ok? ==> r.value == store[section]
    ensures r.Err? ==> r.error == NoSection(section)
  {
    if section !in store then Err(NoSection(section)) else Ok(store[section])
  }

  /** The value of an option that has_option has just confirmed. */
  function GetOr(store: Store, section: string, option: string, default: string): (r: string)
    ensures HasOption(store, section, option) ==> Get(store, section, option) == Ok(r)
  {
    match Get(store, section, option)
    case Ok(v) => v
    case Err(_) => default
  }

  // ---------------------------------------------------------------------
  // Laws of the store

  /** set followed by get of the same option returns the value set. */
  lemma SetThenGet(store: Store, section: string, option: string, value: string)
    requires section in store
    ensures Set(store, section, option, value).Ok?
    ensures Get(Set(store, section, option, value).value, section, option) == Ok(value)
  {
  }

  /** set leaves every other option of every section as it was. */
  lemma SetLeavesOthers(store: Store, section: string, option: string, value: string,
                        s: string, o: string)
    requires section in store
    requires s != section || Lower(o) != Lower(option)
    ensures Get(Set(store, section, option, value).value, s, o) == Get(store, s, o)
  {
    if s == section {
      UpsertOther(store[section], Lower(option), value, Lower(o));
    }
  }

  /** get of an option never set fails with NoOptionError. */
  lemma GetUnsetFails(store: Store, section: string, option: string)
    requires section in store
    requires forall i :: 0 <= i < |store[section]| ==> store[section][i].0 != Lower(option)
    ensures Get(store, section, option) == Err(NoOption(section, Lower(option)))
  {
    FindSpec(store[section], Lower(option));
  }

  /** Option names are case-insensitive: optionxform lower-cases them. */
  lemma OptionsIgnoreCase(store: Store, section: string, option: string)
    ensures Get(store, section, option) == Get(store, section, Lower(option))
  {
    LowerIdempotent(option);
  }

  /** set appends a new option at the end of items() and keeps the place
      of an existing one. */
  lemma SetItemsOrder(store: Store, section: string, option: string, value: string)
    requires section in store
    ensures HasOption(store, section, option) ==>
              Options(Items(Set(store, section, option, value).value, section).value) ==
              Options(store[section])
    ensures !HasOption(store, section, option) ==>
              Items(Set(store, section, option, value).value, section).value ==
              store[section] + [(Lower(option), value)]
  {
    UpsertOrder(store[section], Lower(option), value);
  }

  lemma SetWellFormed(store: Store, section: string, option: string, value: string)
    requires WellFormed(store)
    ensures Set(store, section, option, value).Ok? ==> WellFormed(Set(store, section, option, value).value)
  {
    if section in store {
      var sec := store[section];
      var r := Upsert(sec, Lower(option), value);
      UpsertDistinct(sec, Lower(option), value);
      LowerIdempotent(option);
      assert LowerOptions(r) by {
        forall i | 0 <= i < |r| ensures Lower(r[i].0) == r[i].0 {
          if r[i].0 != Lower(option) {
            FindSpec(r, r[i].0);
            UpsertOther(sec, Lower(option), value, r[i].0);
            FindSpec(sec, r[i].0);
            assert Find(sec, r[i].0).Some?;
            var k :| 0 <= k < |sec| && sec[k] == (r[i].0, Find(sec, r[i].0).value);
          }
        }
      }
    }
  }

  lemma AddSectionWellFormed(store: Store, name: string)
    requires WellFormed(store)
    ensures AddSection(store, name).Ok? ==> WellFormed(AddSection(store, name).value)
  {
  }
}
