/** The sound catalog: the `Sounds` dictionary shared by every command, how a
    directory listing becomes named clips, lookup by name or by the wildcard
    `'*'`, and the two read-only views of it (autocomplete and the `list`
    reply). */
module SoundCatalog {
  import opened Wrappers
  import opened Text

  /** The lookup key that asks for a random clip rather than a stored name. */
  const Wildcard: string := "*"

  /** The storage directory the clips live in (`data/mp3` next to the module). */
  const Mp3Dir: string := "uffbot/commands/data/mp3"

  /** The characters `rstrip('.mp3')` removes from the end of a file name. */
  const Mp3Chars: set<char> := {'.', 'm', 'p', '3'}

  /** A clip read from storage: its name and the path of its file. The audio
      source built from the path is opaque to the model. */
  datatype Sound = Mp3Sound(name: string, filepath: string)

  /** The catalog as a value: the dictionary's keys in insertion order (the
      order `keys()` and `values()` report) and the name-to-clip mapping. */
  datatype Catalog = Catalog(keys: seq<string>, store: map<string, Sound>)

  /** How the dictionary hangs together: every key appears once in the order,
      the order lists exactly the stored names, and each clip is filed under
      its own name. */
  ghost predicate WellFormed(c: Catalog)
  {
    && (forall i, j :: 0 <= i < j < |c.keys| ==> c.keys[i] != c.keys[j])
    && (forall k :: k in c.store <==> k in c.keys)
    && (forall k :: k in c.store ==> c.store[k].name == k)
  }

  /** The name a file is known by: `filename.rstrip('.mp3')`. */
  function SoundName(filename: string): (name: string)
    ensures |name| <= |filename| && name == filename[..|name|]
    ensures |name| == 0 || name[|name| - 1] !in Mp3Chars
    ensures forall i :: |name| <= i < |filename| ==> filename[i] in Mp3Chars
  {
    RStrip(filename, Mp3Chars)
  }

  /** `MP3_DIR / filename`. */
  function FilePath(filename: string): string
  {
    Mp3Dir + "/" + filename
  }

  /** The `rstrip` strips a character set, not the `.mp3` suffix: letters of
      the stem that happen to be in the set go too, and a name may end up
      empty. */
  lemma SoundNameExamples()
    ensures SoundName("airhorn.mp3") == "airhorn"
    ensures SoundName("jump.mp3") == "ju"
    ensures SoundName("3.mp3") == ""
  {
    RStripUnique("airhorn.mp3", Mp3Chars, "airhorn");
    RStripUnique("jump.mp3", Mp3Chars, "ju");
    RStripUnique("3.mp3", Mp3Chars, "");
  }

  /** `get_mp3s()`: one clip per listed file, in listing order; a missing
      directory (`None`) yields nothing. */
  function Mp3s(listing: Option<seq<string>>): (sounds: seq<Sound>)
    ensures listing.None? ==> sounds == []
    ensures listing.Some? ==> |sounds| == |listing.value|
    ensures listing.Some? ==> forall i :: 0 <= i < |sounds| ==>
      sounds[i] == Mp3Sound(SoundName(listing.value[i]), FilePath(listing.value[i]))
  {
    match listing
    case None => []
    case Some(files) => seq(|files|, i requires 0 <= i < |files| => Mp3Sound(SoundName(files[i]), FilePath(files[i])))
  }

  /** `self[s.name] = s` on the dictionary: a new name goes to the end of the
      key order, a known name keeps its place and gets the new clip. */
  function Assign(c: Catalog, s: Sound): Catalog
  {
    Catalog(if s.name in c.store then c.keys else c.keys + [s.name], c.store[s.name := s])
  }

  /** `self.update({mp3.name: mp3 for mp3 in sounds})`. Building the
      comprehension keeps each name at its first position with its last clip,
      and `update` then assigns the names in that order; assigning the clips
      one by one in listing order ends in the same dictionary. */
  function Updated(c: Catalog, sounds: seq<Sound>): Catalog
  {
    if sounds == [] then c else Assign(Updated(c, sounds[..|sounds| - 1]), sounds[|sounds| - 1])
  }

  /** `reload()`: the catalog after merging the clips of a listing into it. */
  function Reloaded(c: Catalog, listing: Option<seq<string>>): Catalog
  {
    Updated(c, Mp3s(listing))
  }

  /** Assigning a clip keeps the old key order as a prefix and stores the
      clip under its name. */
  lemma AssignStores(c: Catalog, s: Sound)
    ensures c.keys <= Assign(c, s).keys
    ensures s.name in Assign(c, s).store && Assign(c, s).store[s.name] == s
  {
  }

  /** Assigning a clip leaves every other entry as it was. */
  lemma AssignOthers(c: Catalog, s: Sound, k: string)
    requires k != s.name
    ensures k in Assign(c, s).store <==> k in c.store
    ensures k in c.store ==> Assign(c, s).store[k] == c.store[k]
  {
  }

  /** Assigning a clip keeps the dictionary well formed. */
  lemma AssignWellFormed(c: Catalog, s: Sound)
    requires WellFormed(c)
    ensures WellFormed(Assign(c, s))
  {
  }

  /** Merging one more clip is one more assignment. */
  lemma UpdatedStep(c: Catalog, sounds: seq<Sound>, i: nat)
    requires i < |sounds|
    ensures Updated(c, sounds[..i + 1]) == Assign(Updated(c, sounds[..i]), sounds[i])
  {
    assert sounds[..i + 1][..i] == sounds[..i];
  }

  /** Merging clips keeps the dictionary well formed and only ever adds keys:
      the old key order is a prefix of the new one, and the new keys are the
      old ones plus the merged names. */
  lemma {:induction false} UpdatedShape(c: Catalog, sounds: seq<Sound>)
    requires WellFormed(c)
    ensures WellFormed(Updated(c, sounds))
    ensures c.keys <= Updated(c, sounds).keys
    ensures forall k :: k in Updated(c, sounds).store <==>
      k in c.store || exists i :: 0 <= i < |sounds| && sounds[i].name == k
  {
    if sounds != [] {
      var init := sounds[..|sounds| - 1];
      UpdatedShape(c, init);
      AssignWellFormed(Updated(c, init), sounds[|sounds| - 1]);
      forall k ensures k in Updated(c, sounds).store <==>
        k in c.store || exists i :: 0 <= i < |sounds| && sounds[i].name == k
      {
        if exists i :: 0 <= i < |sounds| && sounds[i].name == k {
          var i :| 0 <= i < |sounds| && sounds[i].name == k;
          if i < |sounds| - 1 { assert init[i].name == k; }
        }
        if exists i :: 0 <= i < |init| && init[i].name == k {
          var i :| 0 <= i < |init| && init[i].name == k;
          assert sounds[i].name == k;
        }
      }
    }
  }

  /** Every merged clip is reachable by its name, and when a name occurs more
      than once the clip listed last wins. */
  lemma {:induction false} UpdatedLastWins(c: Catalog, sounds: seq<Sound>, i: nat)
    requires i < |sounds|
    requires forall j :: i < j < |sounds| ==> sounds[j].name != sounds[i].name
    ensures sounds[i].name in Updated(c, sounds).store
    ensures Updated(c, sounds).store[sounds[i].name] == sounds[i]
  {
    if i < |sounds| - 1 {
      var init := sounds[..|sounds| - 1];
      UpdatedLastWins(c, init, i);
    }
  }

  /** Names that are not merged keep their clip: a reload never drops or
      changes an entry whose file is no longer listed. */
  lemma {:induction false} UpdatedRetains(c: Catalog, sounds: seq<Sound>, k: string)
    requires k in c.store
    requires forall j :: 0 <= j < |sounds| ==> sounds[j].name != k
    ensures k in Updated(c, sounds).store && Updated(c, sounds).store[k] == c.store[k]
  {
    if sounds != [] {
      UpdatedRetains(c, sounds[..|sounds| - 1], k);
    }
  }

  /** A reload from a missing directory leaves the catalog as it was. */
  lemma ReloadMissingDirectory(c: Catalog)
    ensures Reloaded(c, None) == c
  {
  }

  /** Reload: a listed file's derived name maps to that file's clip, unless a
      later file derives the same name (the later one wins). */
  lemma ReloadLastWins(c: Catalog, files: seq<string>, i: nat)
    requires i < |files|
    requires forall j :: i < j < |files| ==> SoundName(files[j]) != SoundName(files[i])
    ensures SoundName(files[i]) in Reloaded(c, Some(files)).store
    ensures Reloaded(c, Some(files)).store[SoundName(files[i])] == Mp3Sound(SoundName(files[i]), FilePath(files[i]))
  {
    UpdatedLastWins(c, Mp3s(Some(files)), i);
  }

  /** Reload: an entry whose name no listed file derives stays as it was, so a
      clip deleted from storage is still in the catalog after a reload. */
  lemma ReloadRetains(c: Catalog, files: seq<string>, k: string)
    requires k in c.store
    requires forall j :: 0 <= j < |files| ==> SoundName(files[j]) != k
    ensures k in Reloaded(c, Some(files)).store && Reloaded(c, Some(files)).store[k] == c.store[k]
  {
    UpdatedRetains(c, Mp3s(Some(files)), k);
  }

  /** Reload keeps the catalog well formed, keeps the old key order as a
      prefix, and its names are the old ones plus the derived names of the
      listed files, nothing else. */
  lemma ReloadKeys(c: Catalog, files: seq<string>)
    requires WellFormed(c)
    ensures WellFormed(Reloaded(c, Some(files)))
    ensures c.keys <= Reloaded(c, Some(files)).keys
    ensures forall k :: k in Reloaded(c, Some(files)).store <==>
      k in c.store || exists i :: 0 <= i < |files| && SoundName(files[i]) == k
  {
    var sounds := Mp3s(Some(files));
    UpdatedShape(c, sounds);
    forall k ensures k in Reloaded(c, Some(files)).store <==>
      k in c.store || exists i :: 0 <= i < |files| && SoundName(files[i]) == k
    {
      if exists i :: 0 <= i < |sounds| && sounds[i].name == k {
        var i :| 0 <= i < |sounds| && sounds[i].name == k;
        assert SoundName(files[i]) == k;
      }
      if exists i :: 0 <= i < |files| && SoundName(files[i]) == k {
        var i :| 0 <= i < |files| && SoundName(files[i]) == k;
        assert sounds[i].name == k;
      }
    }
  }

  /** Why a lookup fails: `KeyError` for an unknown name, `IndexError` when
      `random.choice` is given no values, and a recursion error when a clip is
      itself stored under `'*'` (the values view reads each entry back
      through the overridden `__getitem__`, which for the key `'*'` asks for a
      random clip again, without end). */
  datatype LookupError = KeyError | IndexError | RecursionError

  /** `list(self.values())` for a catalog with no `'*'` entry (with one, the
      source never returns: see `LookupError`). */
  function Values(c: Catalog): (vs: seq<Sound>)
    requires WellFormed(c) && Wildcard !in c.store
    ensures |vs| == |c.keys|
    ensures forall i :: 0 <= i < |vs| ==> vs[i] == c.store[c.keys[i]]
  {
    seq(|c.keys|, i requires 0 <= i < |c.keys| => c.store[c.keys[i]])
  }

  /** `get_random_sound()`: `random.choice` over the values, the random draw
      modelled as an arbitrary natural taken modulo the number of values. */
  function RandomSound(c: Catalog, pick: nat): (r: Result<Sound, LookupError>)
    requires WellFormed(c)
    ensures r.Ok? ==> r.value in c.store.Values
    ensures r.Err? <==> c.keys == [] || Wildcard in c.store
    ensures Wildcard in c.store ==> r == Err(RecursionError)
    ensures c.keys == [] ==> r == Err(IndexError)
  {
    if Wildcard in c.store then Err(RecursionError)
    else if c.keys == [] then Err(IndexError)
    else
      assert c.keys[pick % |c.keys|] in c.store;
      Ok(Values(c)[pick % |c.keys|])
  }

  /** `sounds[item]`: the wildcard draws a random clip, any other key gives
      exactly the clip stored under it or fails with `KeyError`. */
  function Lookup(c: Catalog, item: string, pick: nat): (r: Result<Sound, LookupError>)
    requires WellFormed(c)
    ensures r.Ok? ==> r.value in c.store.Values
    ensures item == Wildcard ==> (r.Err? <==> c.keys == [] || Wildcard in c.store)
    ensures item == Wildcard && Wildcard in c.store ==> r == Err(RecursionError)
    ensures item == Wildcard && c.keys == [] ==> r == Err(IndexError)
    ensures item != Wildcard ==> (r.Ok? <==> item in c.store)
    ensures item != Wildcard && r.Ok? ==> r.value == c.store[item] && r.value.name == item
    ensures item != Wildcard && r.Err? ==> r.error == KeyError
  {
    if item == Wildcard then RandomSound(c, pick)
    else if item in c.store then Ok(c.store[item])
    else Err(KeyError)
  }

  /** The random draw can land on every stored clip: the draw `i` yields the
      clip stored under the `i`-th key. */
  lemma WildcardDrawsEvery(c: Catalog, i: nat)
    requires WellFormed(c)
    requires i < |c.keys| && Wildcard !in c.store
    ensures Lookup(c, Wildcard, i) == Ok(c.store[c.keys[i]])
  {
    var n := |c.keys|;
    assert i % n == i;
    assert Values(c)[i] == c.store[c.keys[i]];
  }

  /** The catalog object the commands share: a dictionary updated in place. */
  class Sounds {
    var keys: seq<string>
    var store: map<string, Sound>

    function Snapshot(): Catalog
      reads this
    {
      Catalog(keys, store)
    }

    ghost predicate Valid()
      reads this
    {
      WellFormed(Snapshot())
    }

    /** `Sounds()`: an empty dictionary. */
    constructor ()
      ensures Valid() && Snapshot() == Catalog([], map[])
    {
      keys := [];
      store := map[];
    }

    /** `reload()`. */
    method Reload(listing: Option<seq<string>>)
      requires Valid()
      modifies this
      ensures Valid()
      ensures Snapshot() == Reloaded(old(Snapshot()), listing)
    {
      LoadMp3s(listing);
    }

    /** `self[s.name] = s`. */
    method SetItem(s: Sound)
      requires Valid()
      modifies this
      ensures Valid()
      ensures Snapshot() == Assign(old(Snapshot()), s)
    {
      AssignWellFormed(Snapshot(), s);
      if s.name !in store {
        keys := keys + [s.name];
      }
      store := store[s.name := s];
    }

    /** `load_mp3s()`: merges the clips of the listing into the dictionary,
        one assignment per listed file. */
    method LoadMp3s(listing: Option<seq<string>>)
      requires Valid()
      modifies this
      ensures Valid()
      ensures Snapshot() == Updated(old(Snapshot()), Mp3s(listing))
    {
      var sounds := Mp3s(listing);
      var i := 0;
      while i < |sounds|
        invariant 0 <= i <= |sounds|
        invariant Valid()
        invariant Snapshot() == Updated(old(Snapshot()), sounds[..i])
      {
        UpdatedStep(old(Snapshot()), sounds, i);
        SetItem(sounds[i]);
        i := i + 1;
      }
      assert sounds[..i] == sounds;
    }
  }

  /** A suggestion offered while the user types a sound name. */
  datatype Choice = Choice(name: string, value: string)

  /** The most suggestions the platform accepts. */
  const MaxChoices: nat := 25

  /** `value.lower() in sound.lower()`. */
  predicate Matches(value: string, sound: string)
  {
    IsSubstring(Lower(value), Lower(sound))
  }

  /** The candidates that match the typed value, in candidate order. */
  function Matching(candidates: seq<string>, value: string): (r: seq<string>)
    ensures |r| <= |candidates|
    ensures forall x :: x in r <==> x in candidates && Matches(value, x)
  {
    if candidates == [] then []
    else
      var rest := Matching(candidates[1..], value);
      assert forall x :: x in candidates <==> x == candidates[0] || x in candidates[1..];
      if Matches(value, candidates[0]) then [candidates[0]] + rest else rest
  }

  /** Filtering distributes over concatenation: the matches keep the order of
      the candidates. */
  lemma {:induction false} MatchingAppend(a: seq<string>, b: seq<string>, value: string)
    ensures Matching(a + b, value) == Matching(a, value) + Matching(b, value)
  {
    if a == [] {
      assert a + b == b;
    } else {
      assert (a + b)[0] == a[0];
      assert (a + b)[1..] == a[1..] + b;
      MatchingAppend(a[1..], b, value);
      if Matches(value, a[0]) {
        assert Matching(a + b, value) == [a[0]] + Matching(a[1..] + b, value);
      } else {
        assert Matching(a + b, value) == Matching(a[1..] + b, value);
      }
    }
  }

  /** `SoundTransformer.autocomplete`: every key plus `'*'`, kept when the
      typed value occurs in it ignoring ASCII case, cut to the first 25. */
  function Autocomplete(keys: seq<string>, value: string): (choices: seq<Choice>)
    ensures |choices| <= MaxChoices
    ensures forall i :: 0 <= i < |choices| ==>
      && choices[i].name == choices[i].value
      && (choices[i].name in keys || choices[i].name == Wildcard)
      && Matches(value, choices[i].name)
  {
    var names := Take(Matching(keys + [Wildcard], value), MaxChoices);
    assert forall i :: 0 <= i < |names| ==> names[i] in Matching(keys + [Wildcard], value);
    seq(|names|, i requires 0 <= i < |names| => Choice(names[i], names[i]))
  }

  /** The suggestions are the matching keys in key order followed by `'*'`
      when it matches, cut to the first 25: `'*'` comes last. */
  lemma AutocompleteOrder(keys: seq<string>, value: string)
    ensures var choices := Autocomplete(keys, value);
      var expected := Take(Matching(keys, value) + (if Matches(value, Wildcard) then [Wildcard] else []), MaxChoices);
      |choices| == |expected| && forall i :: 0 <= i < |choices| ==> choices[i] == Choice(expected[i], expected[i])
  {
    MatchingAppend(keys, [Wildcard], value);
  }

  /** No matching candidate is lost while the matches fit under the cap. */
  lemma AutocompleteComplete(keys: seq<string>, value: string, x: string)
    requires |Matching(keys + [Wildcard], value)| <= MaxChoices
    requires x in keys + [Wildcard] && Matches(value, x)
    ensures Choice(x, x) in Autocomplete(keys, value)
  {
    var m := Matching(keys + [Wildcard], value);
    var i :| 0 <= i < |m| && m[i] == x;
    assert Autocomplete(keys, value)[i] == Choice(x, x);
  }

  /** An empty value is a substring of everything: the suggestions are then
      the first 25 keys, followed by `'*'` when there are fewer than 25. */
  lemma AutocompleteEmptyValue(keys: seq<string>)
    ensures forall x :: Matches("", x)
    ensures |keys| < MaxChoices ==>
      |Autocomplete(keys, "")| == |keys| + 1 && Autocomplete(keys, "")[|keys|] == Choice(Wildcard, Wildcard)
  {
    forall x ensures Matches("", x) {
      assert OccursAt(Lower(""), Lower(x), 0);
    }
    if |keys| < MaxChoices {
      assert forall x :: x in keys + [Wildcard] ==> Matches("", x);
      AllMatch(keys + [Wildcard], "");
      AutocompleteOrder(keys, "");
      AllMatch(keys, "");
    }
  }

  /** When every candidate matches, filtering keeps all of them. */
  lemma {:induction false} AllMatch(candidates: seq<string>, value: string)
    requires forall x :: x in candidates ==> Matches(value, x)
    ensures Matching(candidates, value) == candidates
  {
    if candidates != [] {
      AllMatch(candidates[1..], value);
    }
  }

  /** The reply to `list` when the joined names are empty. */
  const NoSoundsText: string := "There are no sounds!"

  /** The longest reply `list` sends. */
  const MaxListLength: nat := 1999

  /** `list_sounds`: the names joined by newlines, cut to 1999 characters, or
      the fixed text when the join is empty. */
  function ListReply(keys: seq<string>): (reply: string)
    ensures |reply| <= MaxListLength || reply == NoSoundsText
    ensures |Join(keys, '\n')| > 0 ==>
      |reply| == (if |Join(keys, '\n')| <= MaxListLength then |Join(keys, '\n')| else MaxListLength)
    ensures |Join(keys, '\n')| > 0 ==> reply == Join(keys, '\n')[..|reply|]
  {
    var text := Join(keys, '\n');
    if |text| > 0 then Take(text, MaxListLength) else NoSoundsText
  }

  /** The fixed text is sent exactly when there are no names or a single empty
      name; otherwise the reply is the first 1999 characters of the joined
      names (all of them when the join is shorter). */
  lemma ListReplyCases(keys: seq<string>)
    ensures keys == [] || keys == [""] ==> ListReply(keys) == NoSoundsText
    ensures keys != [] && keys != [""] ==>
      0 < |ListReply(keys)| <= MaxListLength && ListReply(keys) <= Join(keys, '\n')
    ensures keys != [] && keys != [""] ==>
      |ListReply(keys)| == (if |Join(keys, '\n')| <= MaxListLength then |Join(keys, '\n')| else MaxListLength)
  {
    JoinEmpty(keys, '\n');
  }

  /** Round trip: a reply that was not cut splits back into the names, when
      no name holds a newline and the join is not empty. */
  lemma ListReplyRoundTrip(keys: seq<string>)
    requires keys != [] && keys != [""]
    requires forall i :: 0 <= i < |keys| ==> '\n' !in keys[i]
    requires |Join(keys, '\n')| <= MaxListLength
    ensures Split(ListReply(keys), '\n') == keys
  {
    JoinEmpty(keys, '\n');
    SplitJoin(keys, '\n');
  }

  /** Two clips are listed one per line. */
  lemma ListReplyExample()
    ensures ListReply(["airhorn", "boo"]) == "airhorn\nboo"
  {
  }
}
