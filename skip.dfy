/** skip.js: move the game's clock back by rewriting the save. The save
    is read from the browser database, the player record inside it is
    decoded, `lastSave` and `lastUpdate` are moved back by the amount the
    arguments spell, and the save is written back. Base64, JSON and the
    database are abstracted as a `Codec` and a `SaveStore`. */
module Skip {
  import opened Common
  import Duration

  /** The player record as the edit callback sees `playerData.data`: the
      two timestamps it changes and every other field, kept opaque. */
  datatype PlayerRecord = PlayerRecord(lastSave: int, lastUpdate: int, rest: map<string, string>)

  /** The decoders and encoders `editPlayerData` relies on: the raw save
      string to the `saveData.data` fields and back (base64 and JSON), and
      the `PlayerSave` field to a player record and back (JSON). A decoder
      answers `None` where `JSON.parse` throws. */
  datatype Codec = Codec(
    readSave: string -> Option<map<string, string>>,
    writeSave: map<string, string> -> string,
    readPlayer: string -> Option<PlayerRecord>,
    writePlayer: PlayerRecord -> string)

  /** Encoding then decoding gives back what was encoded. */
  ghost predicate RoundTrips(c: Codec)
  {
    && (forall m :: c.readSave(c.writeSave(m)) == Some(m))
    && (forall p :: c.readPlayer(c.writePlayer(p)) == Some(p))
  }

  const PlayerSaveKey := "PlayerSave"

  /** The save string `editPlayerData` writes back, or the error that ends
      it before anything is written: an unreadable save, a save without a
      `PlayerSave` field (`JSON.parse(undefined)` throws) or an unreadable
      player record. */
  function EditedSave(c: Codec, raw: string, edit: PlayerRecord -> PlayerRecord): Result<string>
  {
    match c.readSave(raw)
    case None => Err("SyntaxError: unreadable save")
    case Some(save) =>
      if PlayerSaveKey !in save then Err("SyntaxError: no player save")
      else
        match c.readPlayer(save[PlayerSaveKey])
        case None => Err("SyntaxError: unreadable player save")
        case Some(p) => Ok(c.writeSave(save[PlayerSaveKey := c.writePlayer(edit(p))]))
  }

  /** With a codec that round-trips, the new save holds the edited player
      record under `PlayerSave` and every other field unchanged. */
  lemma EditReplacesOnlyPlayer(c: Codec, raw: string, edit: PlayerRecord -> PlayerRecord)
    requires RoundTrips(c)
    ensures var r := EditedSave(c, raw, edit);
      r.Ok? ==>
        && c.readSave(raw).Some? && PlayerSaveKey in c.readSave(raw).value
        && c.readPlayer(c.readSave(raw).value[PlayerSaveKey]).Some?
        && var old_ := c.readSave(raw).value;
           var p := c.readPlayer(old_[PlayerSaveKey]).value;
           && c.readSave(r.value).Some?
           && var new_ := c.readSave(r.value).value;
              && new_.Keys == old_.Keys
              && (forall key :: key in old_ && key != PlayerSaveKey ==> new_[key] == old_[key])
              && c.readPlayer(new_[PlayerSaveKey]) == Some(edit(p))
  {
  }

  /** The edit fails exactly when the save cannot be read, has no player
      record or the record cannot be read. */
  lemma EditFailsOnlyOnUnreadable(c: Codec, raw: string, edit: PlayerRecord -> PlayerRecord)
    ensures EditedSave(c, raw, edit).Err? <==>
      c.readSave(raw).None? || PlayerSaveKey !in c.readSave(raw).value ||
      c.readPlayer(c.readSave(raw).value[PlayerSaveKey]).None?
  {
  }

  /** The callback of `main`: both timestamps move back by `amount`. */
  function SkipBack(p: PlayerRecord, amount: int): (q: PlayerRecord)
    ensures q.rest == p.rest
    ensures q.lastUpdate - q.lastSave == p.lastUpdate - p.lastSave
  {
    p.(lastSave := p.lastSave - amount, lastUpdate := p.lastUpdate - amount)
  }

  /** Skipping `a` then `b` is skipping `a + b`, and skipping forward
      undoes a skip. */
  lemma SkipBackComposes(p: PlayerRecord, a: int, b: int)
    ensures SkipBack(SkipBack(p, a), b) == SkipBack(p, a + b)
    ensures SkipBack(SkipBack(p, a), -a) == p
  {
  }

  /** The browser's IndexedDB entry `savestring/save`. */
  class SaveStore {
    var raw: string

    constructor (raw: string)
      ensures this.raw == raw
    {
      this.raw := raw;
    }

    /** `editPlayerData(callback)`: on success the entry holds the
        re-encoded save; on an error nothing is written. */
    method EditPlayerData(c: Codec, edit: PlayerRecord -> PlayerRecord) returns (r: Result<()>)
      modifies this
      ensures r.Ok? <==> EditedSave(c, old(raw), edit).Ok?
      ensures raw == if r.Ok? then EditedSave(c, old(raw), edit).value else old(raw)
    {
      var saved := c.readSave(raw);
      if saved.None? {
        return Err("SyntaxError: unreadable save");
      }
      var save := saved.value;
      if PlayerSaveKey !in save {
        return Err("SyntaxError: no player save");
      }
      var player := c.readPlayer(save[PlayerSaveKey]);
      if player.None? {
        return Err("SyntaxError: unreadable player save");
      }
      save := save[PlayerSaveKey := c.writePlayer(edit(player.value))];
      raw := c.writeSave(save);
      return Ok(());
    }
  }

  /** `main`: the amount is read from the arguments joined by spaces, and
      the save moves back by that many milliseconds. */
  method Run(store: SaveStore, c: Codec, args: seq<string>) returns (amount: nat, r: Result<()>)
    modifies store
    ensures amount == Duration.SkipAmount(args) && amount % 1000 == 0
    ensures var e := EditedSave(c, old(store.raw), p => SkipBack(p, amount));
      (r.Ok? <==> e.Ok?) && store.raw == (if r.Ok? then e.value else old(store.raw))
  {
    amount := Duration.SkipAmount(args);
    r := store.EditPlayerData(c, p => SkipBack(p, amount));
  }

  /** After a successful skip, with a codec that round-trips, the stored
      player record is the old one with both timestamps moved back and
      every other save field unchanged. */
  lemma SkipRewritesTimestamps(c: Codec, raw: string, amount: int)
    requires RoundTrips(c)
    requires EditedSave(c, raw, p => SkipBack(p, amount)).Ok?
    ensures var old_ := c.readSave(raw).value;
      var p := c.readPlayer(old_[PlayerSaveKey]).value;
      var new_ := c.readSave(EditedSave(c, raw, p => SkipBack(p, amount)).value).value;
      && new_.Keys == old_.Keys
      && (forall key :: key in old_ && key != PlayerSaveKey ==> new_[key] == old_[key])
      && c.readPlayer(new_[PlayerSaveKey]) ==
           Some(PlayerRecord(p.lastSave - amount, p.lastUpdate - amount, p.rest))
  {
    EditReplacesOnlyPlayer(c, raw, p => SkipBack(p, amount));
  }
}
