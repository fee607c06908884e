/** The `sb` command group: the voice session it keeps (one connection and the
    clip playing on it), the idle watchdog, the handler for voice-presence
    events, and the `list`, `upload`, `play`, `stop` and `reload` commands. */
module Board {
  import opened Wrappers
  import opened SoundCatalog

  type ChannelId = int
  type UserId = int

  /** A voice connection: the channel it is connected to and whether it is
      streaming a clip right now (`is_playing()`). */
  datatype VoiceClient = VoiceClient(channel: ChannelId, playing: bool)

  /** The two fields of the session: `voice_client` and `current_sound`. */
  datatype Session = Session(voiceClient: Option<VoiceClient>, currentSound: Option<Sound>)

  /** No connection and nothing recorded as playing. */
  const Idle: Session := Session(None, None)

  /** The fields are set and cleared together: a connection exists exactly
      when a current clip is recorded. */
  predicate Consistent(s: Session)
  {
    s.voiceClient.Some? <==> s.currentSound.Some?
  }

  /** `play_sound(channel, sound)`: connects to the channel and starts the clip
      only when there is no connection; with a connection it does nothing. */
  function PlaySoundStep(s: Session, channel: ChannelId, sound: Sound): (r: Session)
    ensures r.voiceClient.Some?
    ensures s.voiceClient.Some? ==> r == s
    ensures s.voiceClient.None? ==>
      r.voiceClient.value == VoiceClient(channel, true) && r.currentSound == Some(sound)
  {
    if s.voiceClient.None? then Session(Some(VoiceClient(channel, true)), Some(sound)) else s
  }

  /** One pass of the `disconnector` loop: a connection that is not playing
      is closed and both fields are cleared. */
  function Tick(s: Session): (r: Session)
    ensures r == s || r == Idle
    ensures r.voiceClient.Some? ==> r.voiceClient.value.playing
    ensures s.voiceClient.Some? && s.voiceClient.value.playing ==> r == s
  {
    if s.voiceClient.Some? && !s.voiceClient.value.playing then Idle else s
  }

  /** The transport reports that the stream ended. */
  function Finished(s: Session): (r: Session)
    ensures r.currentSound == s.currentSound
    ensures r.voiceClient.Some? <==> s.voiceClient.Some?
    ensures r.voiceClient.Some? ==>
      r.voiceClient.value.channel == s.voiceClient.value.channel && !r.voiceClient.value.playing
  {
    if s.voiceClient.Some? then s.(voiceClient := Some(s.voiceClient.value.(playing := false))) else s
  }

  /** The state after `voice_client.stop()`; the connection itself stays for
      the watchdog to close. */
  function Stopped(s: Session): Session
  {
    Finished(s)
  }

  /** Every transition keeps the two fields in step. */
  lemma TransitionsKeepConsistent(s: Session, channel: ChannelId, sound: Sound)
    requires Consistent(s)
    ensures Consistent(PlaySoundStep(s, channel, sound))
    ensures Consistent(Tick(s)) && Consistent(Finished(s)) && Consistent(Stopped(s))
  {
  }

  /** Plays a run of requests one after another. */
  function PlayAll(s: Session, requests: seq<(ChannelId, Sound)>): Session
    decreases requests
  {
    if requests == [] then s
    else PlayAll(PlaySoundStep(s, requests[0].0, requests[0].1), requests[1..])
  }

  /** However many play requests follow each other before the watchdog runs,
      there is one connection, to the first request's channel, playing the
      first request's clip: later requests are neither redialed nor
      redirected. */
  lemma {:induction false} PlayRequestsKeepFirst(s: Session, requests: seq<(ChannelId, Sound)>)
    requires s.voiceClient.None? && requests != []
    ensures PlayAll(s, requests) == Session(Some(VoiceClient(requests[0].0, true)), Some(requests[0].1))
  {
    var first := PlaySoundStep(s, requests[0].0, requests[0].1);
    PlayAllConnected(first, requests[1..]);
  }

  /** With a connection open, play requests change nothing. */
  lemma {:induction false} PlayAllConnected(s: Session, requests: seq<(ChannelId, Sound)>)
    requires s.voiceClient.Some?
    ensures PlayAll(s, requests) == s
    decreases requests
  {
    if requests != [] {
      PlayAllConnected(s, requests[1..]);
    }
  }

  /** `n` passes of the watchdog loop. */
  function Ticks(s: Session, n: nat): Session
    decreases n
  {
    if n == 0 then s else Ticks(Tick(s), n - 1)
  }

  /** The watchdog's teardown is idempotent: any number of passes (at least
      one) acts like a single pass, and after a pass no connection is left
      that is not playing. */
  lemma {:induction false} TicksActOnce(s: Session, n: nat)
    requires n >= 1
    ensures Ticks(s, n) == Tick(s)
    ensures Tick(s).voiceClient.Some? ==> Tick(s).voiceClient.value.playing
    decreases n
  {
    if n > 1 {
      TicksActOnce(Tick(s), n - 1);
    }
  }

  /** A played clip that finishes, or is stopped, is torn down by the next
      watchdog pass, which clears both fields. */
  lemma PlaybackEndsIdle(channel: ChannelId, sound: Sound)
    ensures Tick(Finished(PlaySoundStep(Idle, channel, sound))) == Idle
    ensures Tick(Stopped(PlaySoundStep(Idle, channel, sound))) == Idle
    ensures Tick(PlaySoundStep(Idle, channel, sound)) == PlaySoundStep(Idle, channel, sound)
  {
  }

  /** How a voice-presence event is sorted. */
  datatype VoiceChange = Join | Leave | Switch

  /** `on_voice_state_update`'s branches on the channel before and after. */
  function Classify(before: Option<ChannelId>, after: Option<ChannelId>): (change: VoiceChange)
    ensures change == Join <==> before.None? && after.Some?
    ensures change == Leave <==> before.Some? && after.None?
    ensures change == Switch <==> before.None? == after.None?
  {
    if before.None? && after.Some? then Join
    else if before.Some? && after.None? then Leave
    else Switch
  }

  /** `on_voice_state_update` on the session: events about the bot itself are
      ignored; a join plays `sounds['*']` in the joined channel; leaves and
      switches only log. A failed wildcard lookup raises out of the handler
      and leaves the session as it was. */
  function VoiceStateUpdate(s: Session, c: Catalog, member: UserId, botUser: UserId,
                            before: Option<ChannelId>, after: Option<ChannelId>, pick: nat): (r: Session)
    requires WellFormed(c)
    ensures Consistent(s) ==> Consistent(r)
    ensures member == botUser || before.Some? || after.None? || s.voiceClient.Some? ==> r == s
  {
    if member == botUser then s
    else match Classify(before, after)
      case Join =>
        (match Lookup(c, Wildcard, pick)
         case Ok(sound) => PlaySoundStep(s, after.value, sound)
         case Err(_) => s)
      case _ => s
  }

  /** Only a join by someone other than the bot, while no connection is open
      and the wildcard can draw a clip, changes the session; it then connects
      to the joined channel and plays a stored clip. */
  lemma VoiceEventsOnlyJoinPlays(s: Session, c: Catalog, member: UserId, botUser: UserId,
                                 before: Option<ChannelId>, after: Option<ChannelId>, pick: nat)
    requires WellFormed(c)
    ensures var r := VoiceStateUpdate(s, c, member, botUser, before, after, pick);
      r != s ==>
        && member != botUser && before.None? && after.Some? && s.voiceClient.None?
        && r.voiceClient == Some(VoiceClient(after.value, true))
        && r.currentSound.Some? && r.currentSound.value in c.store.Values
    ensures member != botUser && before.None? && after.Some? && s.voiceClient.None?
            && c.keys != [] && Wildcard !in c.store ==>
      VoiceStateUpdate(s, c, member, botUser, before, after, pick).voiceClient == Some(VoiceClient(after.value, true))
  {
  }

  /** An uploaded attachment: its file name and declared content type. */
  datatype Attachment = Attachment(filename: string, contentType: string)

  /** The only content type `upload` accepts. */
  const Mp3ContentType: string := "audio/mpeg"

  /** What `upload` replies. */
  datatype UploadOutcome = WrongFormat | DuplicateName | Added(filename: string)

  /** `upload_sound`'s decision chain: the content type first, then whether
      the derived name is taken; the file extension is never looked at. */
  function UploadDecision(c: Catalog, file: Attachment): (outcome: UploadOutcome)
    ensures outcome == WrongFormat <==> file.contentType != Mp3ContentType
    ensures outcome == DuplicateName <==>
      file.contentType == Mp3ContentType && SoundName(file.filename) in c.store
    ensures outcome.Added? ==> outcome.filename == file.filename && SoundName(file.filename) !in c.store
  {
    if file.contentType != Mp3ContentType then WrongFormat
    else if SoundName(file.filename) in c.store then DuplicateName
    else Added(file.filename)
  }

  /** The duplicate check derives the name exactly as reload does: once an
      upload is saved and shows up in the listing, the same file name is
      refused as a duplicate. */
  lemma ReuploadIsDuplicate(c: Catalog, file: Attachment, listing: seq<string>)
    requires WellFormed(c)
    requires UploadDecision(c, file).Added?
    requires file.filename in listing
    ensures UploadDecision(Reloaded(c, Some(listing)), file) == DuplicateName
  {
    ReloadKeys(c, listing);
    var i :| 0 <= i < |listing| && listing[i] == file.filename;
    assert SoundName(listing[i]) == SoundName(file.filename);
  }

  /** A guild member and the voice channel they are in, if any. */
  datatype Member = Member(id: UserId, voice: Option<ChannelId>)

  /** What `play` replies. A failed lookup is raised by the sound argument's
      transformer before the command body runs. */
  datatype PlayOutcome = TransformFailed(error: LookupError) | NotInVoice(target: UserId) | Playing(sound: Sound, channel: ChannelId)

  /** What `stop` replies. */
  datatype StopOutcome = StoppedPlayback | NothingPlaying

  /** The command group, one per guild it is registered in. */
  class SoundBoard {
    const name: string
    /** `SoundTransformer.sounds`, the catalog shared by all commands. */
    const sounds: Sounds
    var voiceClient: Option<VoiceClient>
    var currentSound: Option<Sound>

    function State(): Session
      reads this
    {
      Session(voiceClient, currentSound)
    }

    ghost predicate Valid()
      reads this, sounds
    {
      sounds.Valid() && Consistent(State())
    }

    /** `SoundBoard(bot)`: named `sb`, no connection, and the shared catalog
        reloaded from the listing. */
    constructor (sounds: Sounds, listing: Option<seq<string>>)
      requires sounds.Valid()
      modifies sounds
      ensures Valid() && this.sounds == sounds && name == "sb" && State() == Idle
      ensures sounds.Snapshot() == Reloaded(old(sounds.Snapshot()), listing)
    {
      name := "sb";
      this.sounds := sounds;
      voiceClient := None;
      currentSound := None;
      new;
      sounds.Reload(listing);
    }

    /** `play_sound`. */
    method PlaySound(channel: ChannelId, sound: Sound)
      requires Valid()
      modifies this
      ensures Valid()
      ensures State() == PlaySoundStep(old(State()), channel, sound)
    {
      if voiceClient.None? {
        voiceClient := Some(VoiceClient(channel, true));
        currentSound := Some(sound);
      }
    }

    /** One pass of `disconnector`. */
    method DisconnectorTick()
      requires Valid()
      modifies this
      ensures Valid()
      ensures State() == Tick(old(State()))
    {
      if voiceClient.Some? && !voiceClient.value.playing {
        voiceClient := None;
        currentSound := None;
      }
    }

    /** The transport's report that the stream ended (`after_play` only logs). */
    method PlaybackFinished()
      requires Valid()
      modifies this
      ensures Valid()
      ensures State() == Finished(old(State()))
    {
      if voiceClient.Some? {
        voiceClient := Some(voiceClient.value.(playing := false));
      }
    }

    /** `stop`: with no connection `voice_client.stop()` raises
        `AttributeError` and the reply says nothing is playing; otherwise the
        stream stops and the connection is left to the watchdog. */
    method StopPlayback() returns (outcome: StopOutcome)
      requires Valid()
      modifies this
      ensures Valid()
      ensures outcome == NothingPlaying <==> old(voiceClient).None?
      ensures State() == Stopped(old(State()))
    {
      if voiceClient.None? {
        outcome := NothingPlaying;
      } else {
        voiceClient := Some(voiceClient.value.(playing := false));
        outcome := StoppedPlayback;
      }
    }

    /** `play`: the sound argument is looked up first; then the target
        (the caller when none is given) must be in a voice channel; then the
        clip is played there and the reply names that channel, even when an
        open connection elsewhere kept `play_sound` from doing anything. */
    method Play(value: string, pick: nat, user: Member, target: Option<Member>) returns (outcome: PlayOutcome)
      requires Valid()
      modifies this
      ensures Valid()
      ensures var found := Lookup(sounds.Snapshot(), value, pick);
        var who := if target.Some? then target.value else user;
        if found.Err? then outcome == TransformFailed(found.error) && State() == old(State())
        else if who.voice.None? then outcome == NotInVoice(who.id) && State() == old(State())
        else outcome == Playing(found.value, who.voice.value)
             && State() == PlaySoundStep(old(State()), who.voice.value, found.value)
    {
      var found := Lookup(sounds.Snapshot(), value, pick);
      if found.Err? {
        return TransformFailed(found.error);
      }
      var who := if target.Some? then target.value else user;
      if who.voice.None? {
        return NotInVoice(who.id);
      }
      PlaySound(who.voice.value, found.value);
      outcome := Playing(found.value, who.voice.value);
    }

    /** `on_voice_state_update`, with `on_voice_join` playing the wildcard clip. */
    method OnVoiceStateUpdate(member: UserId, botUser: UserId, before: Option<ChannelId>, after: Option<ChannelId>, pick: nat)
      requires Valid()
      modifies this
      ensures Valid()
      ensures State() == VoiceStateUpdate(old(State()), sounds.Snapshot(), member, botUser, before, after, pick)
    {
      if member != botUser {
        var change := Classify(before, after);
        if change == Join {
          var found := Lookup(sounds.Snapshot(), Wildcard, pick);
          if found.Ok? {
            PlaySound(after.value, found.value);
          }
        }
      }
    }

    /** `list`. */
    method ListSounds() returns (reply: string)
      requires Valid()
      ensures reply == ListReply(sounds.keys)
      ensures reply == NoSoundsText || (|reply| <= MaxListLength && reply <= Text.Join(sounds.keys, '\n'))
    {
      ListReplyCases(sounds.keys);
      reply := ListReply(sounds.keys);
    }

    /** `upload`: a rejected upload writes nothing and leaves the catalog as
        it was; an accepted one writes the file and reloads the catalog from
        the listing that now includes it. */
    method UploadSound(file: Attachment, listingAfterSave: Option<seq<string>>) returns (outcome: UploadOutcome, written: Option<string>)
      requires Valid()
      modifies sounds
      ensures Valid()
      ensures outcome == UploadDecision(old(sounds.Snapshot()), file)
      ensures outcome.Added? ==>
        written == Some(FilePath(file.filename)) && sounds.Snapshot() == Reloaded(old(sounds.Snapshot()), listingAfterSave)
      ensures !outcome.Added? ==> written == None && sounds.Snapshot() == old(sounds.Snapshot())
    {
      if file.contentType != Mp3ContentType {
        outcome, written := WrongFormat, None;
      } else if SoundName(file.filename) in sounds.store {
        outcome, written := DuplicateName, None;
      } else {
        written := Some(FilePath(file.filename));
        sounds.Reload(listingAfterSave);
        outcome := Added(file.filename);
      }
    }

    /** `reload`. */
    method ReloadMp3s(listing: Option<seq<string>>)
      requires Valid()
      modifies sounds
      ensures Valid()
      ensures sounds.Snapshot() == Reloaded(old(sounds.Snapshot()), listing)
    {
      sounds.Reload(listing);
    }
  }
}
