/**
 * `importSheltersFromJson`: normalises every raw record of a shelter data
 * file, counts the rejected ones and saves the accepted ones in one write.
 */
module Import {
  import opened Wrappers
  import opened Json
  import opened ShelterTypes
  import opened Location
  import opened Normalizer
  import opened Store

  /** `jsonData && jsonData.shelters && Array.isArray(jsonData.shelters)`. */
  predicate IsShelterFile(jsonData: JValue)
  {
    Truthy(jsonData) && Get(jsonData, "shelters").JArr?
  }

  /** The accepted records of `raws`, in their order. */
  function ConvertAll(raws: seq<JValue>): (r: seq<Shelter>)
    ensures |r| <= |raws|
  {
    if raws == [] then []
    else
      var accepted := ConvertAll(raws[..|raws| - 1]);
      match ConvertRawShelterData(raws[|raws| - 1])
      case Some(s) => accepted + [s]
      case None => accepted
  }

  /**
   * Every imported shelter is the normalised form of some record of the
   * file, so it has coordinates and they are in range.
   */
  lemma {:induction false} ConvertAllSources(raws: seq<JValue>)
    ensures forall s :: s in ConvertAll(raws) ==>
              exists j :: 0 <= j < |raws| && ConvertRawShelterData(raws[j]) == Some(s)
    ensures forall s :: s in ConvertAll(raws) ==>
              s.hasCoordinates && InRange(Coordinates(s.latitude, s.longitude))
  {
    if raws != [] {
      var init := raws[..|raws| - 1];
      ConvertAllSources(init);
      assert forall j :: 0 <= j < |init| ==> init[j] == raws[j];
      forall s | s in ConvertAll(raws)
        ensures exists j :: 0 <= j < |raws| && ConvertRawShelterData(raws[j]) == Some(s)
      {
        if s !in ConvertAll(init) {
          assert ConvertRawShelterData(raws[|raws| - 1]) == Some(s);
        }
      }
    }
  }

  /** How many records of `raws` the normaliser rejects. */
  function Rejected(raws: seq<JValue>): nat
  {
    if raws == [] then 0
    else Rejected(raws[..|raws| - 1]) + if ConvertRawShelterData(raws[|raws| - 1]).None? then 1 else 0
  }

  /** Every record is either accepted or counted as skipped. */
  lemma {:induction false} AcceptedPlusSkipped(raws: seq<JValue>)
    ensures |ConvertAll(raws)| + Rejected(raws) == |raws|
  {
    if raws != [] {
      AcceptedPlusSkipped(raws[..|raws| - 1]);
    }
  }

  /** Converting a concatenation converts the parts in order: the accepted records keep the file's order. */
  lemma {:induction false} ConvertAllAppend(a: seq<JValue>, b: seq<JValue>)
    ensures ConvertAll(a + b) == ConvertAll(a) + ConvertAll(b)
  {
    if b == [] {
      assert a + b == a;
    } else {
      var init := b[..|b| - 1];
      assert (a + b)[..|a + b| - 1] == a + init;
      assert (a + b)[|a + b| - 1] == b[|b| - 1];
      ConvertAllAppend(a, init);
    }
  }

  /** A file whose records all have a zero latitude imports nothing. */
  lemma {:induction false} ZeroLatitudesImportNothing(raws: seq<JValue>)
    requires forall j :: 0 <= j < |raws| ==> Get(raws[j], "latitude") == JNum(0.0)
    ensures ConvertAll(raws) == [] && Rejected(raws) == |raws|
  {
    if raws != [] {
      ZeroLatitudesImportNothing(raws[..|raws| - 1]);
      ZeroCoordinateRejected(raws[|raws| - 1]);
    }
  }

  /** One more record: the accepted list and the rejected count grow by what the normaliser makes of it. */
  lemma ConvertStep(raws: seq<JValue>, i: nat)
    requires i < |raws|
    ensures var next := ConvertRawShelterData(raws[i]);
            && ConvertAll(raws[..i + 1]) == ConvertAll(raws[..i]) + (if next.Some? then [next.value] else [])
            && Rejected(raws[..i + 1]) == Rejected(raws[..i]) + (if next.None? then 1 else 0)
  {
    assert raws[..i + 1][..i] == raws[..i];
    assert raws[..i + 1][i] == raws[i];
  }

  /** The loop of `importSheltersFromJson`: each record is normalised and kept, or counted as skipped. */
  method ConvertRecords(raws: seq<JValue>) returns (valid: seq<Shelter>, skipped: nat)
    ensures valid == ConvertAll(raws)
    ensures skipped == Rejected(raws)
    ensures |valid| + skipped == |raws|
  {
    valid := [];
    skipped := 0;
    for i := 0 to |raws|
      invariant valid == ConvertAll(raws[..i])
      invariant skipped == Rejected(raws[..i])
    {
      ConvertStep(raws, i);
      var shelter := ConvertRawShelterData(raws[i]);
      if shelter.Some? {
        valid := valid + [shelter.value];
      } else {
        skipped := skipped + 1;
      }
    }
    assert raws[..|raws|] == raws;
    AcceptedPlusSkipped(raws);
  }

  /**
   * `importSheltersFromJson`: a file without a shelter array is refused
   * before anything is written; otherwise the accepted records are saved in
   * one envelope and returned, and a failing save is passed on. `skipped` is
   * the count the source logs.
   */
  method ImportSheltersFromJson(store: AsyncStorage, jsonData: JValue, now: int)
      returns (r: Result<seq<Shelter>, StoreError>, skipped: nat)
    modifies store`kv
    ensures !IsShelterFile(jsonData) ==> r == Failure(InvalidFormat) && store.kv == old(store.kv)
    ensures IsShelterFile(jsonData) ==>
              var raws := Get(jsonData, "shelters").items;
              && skipped == Rejected(raws)
              && |ConvertAll(raws)| + skipped == |raws|
              && (store.failing ==> r == Failure(WriteFailed) && store.kv == old(store.kv))
              && (!store.failing ==>
                    && r == Success(ConvertAll(raws))
                    && store.kv == old(store.kv)[SheltersKey := Json(Envelope(ConvertAll(raws), now))]
                                                [LastUpdateKey := Instant(now)])
  {
    if !IsShelterFile(jsonData) {
      return Failure(InvalidFormat), 0;
    }
    var raws := Get(jsonData, "shelters").items;
    var valid;
    valid, skipped := ConvertRecords(raws);
    var saved := store.SaveShelters(valid, now);
    if saved.Fail? {
      return Failure(saved.error), skipped;
    }
    r := Success(valid);
  }
}
