/** The record that a wrapper call leaves in the index
    (runtime/internal/sessions/metadata_sync.go). */
module MetadataRecords {
  import opened Wrappers
  import opened SessionEvents
  import opened SessionState
  import opened RecentEvents
  import opened SessionFiles
  import opened SessionMetadata
  import opened MetadataSync
  import opened Text

  // ----- The text of a user message -----

  /** The texts of the parts that have one. */
  function Words(parts: seq<Part>): seq<string> {
    if parts == [] then []
    else (if parts[0].TextPart? && parts[0].text != "" then [parts[0].text] else []) + Words(parts[1..])
  }

  function Spaced(words: seq<string>): string {
    if words == [] then "" else if |words| == 1 then words[0] else words[0] + " " + Spaced(words[1..])
  }

  lemma SpacedCons(word: string, rest: seq<string>)
    ensures Spaced([word] + rest) == if rest == [] then word else word + " " + Spaced(rest)
  {
    assert ([word] + rest)[1..] == rest;
  }

  lemma WordsOf(parts: seq<Part>)
    ensures parts == [] ==> Words(parts) == []
    ensures parts != [] ==>
              Words(parts) == if parts[0].TextPart? && parts[0].text != "" then [parts[0].text] + Words(parts[1..])
                              else Words(parts[1..])
  {
  }

  lemma Regroup(built: string, word: string, rest: string)
    ensures (built + " " + word) + " " + rest == built + " " + (word + " " + rest)
  {
  }

  lemma AddTextsStep(built: string, parts: seq<Part>)
    requires parts != []
    ensures AddTexts(built, parts)
         == AddTexts(if parts[0].TextPart? && parts[0].text != ""
                     then (if built != "" then built + " " + parts[0].text else parts[0].text) else built, parts[1..])
  {
    if parts[0].TextPart? && built == "" { assert built + parts[0].text == parts[0].text; }
  }

  lemma {:induction false} TextsAreSpaced(built: string, parts: seq<Part>)
    ensures AddTexts(built, parts)
         == if built == "" then Spaced(Words(parts))
            else if Words(parts) == [] then built else built + " " + Spaced(Words(parts))
    decreases |parts|
  {
    hide Words, Spaced, AddTexts;
    WordsOf(parts);
    if parts == [] {
      NothingSpaced(built);
    } else {
      AddTextsStep(built, parts);
      var rest := Words(parts[1..]);
      if parts[0].TextPart? && parts[0].text != "" {
        var word := parts[0].text;
        SpacedCons(word, rest);
        TextsAreSpaced(if built != "" then built + " " + word else word, parts[1..]);
        Regroup(built, word, Spaced(rest));
      } else {
        TextsAreSpaced(built, parts[1..]);
      }
    }
  }

  lemma NothingSpaced(built: string)
    ensures Spaced([]) == "" && AddTexts(built, []) == built
  {
  }

  /** A user message is its texts with single blanks in between, without the
      blanks around them; what is not from the user has no such text. */
  lemma MessageIsItsWords(event: LogEvent)
    ensures event.content.Some? && event.content.value.role == "user" ==>
              IsTrimOf(UserMessageText(event), Spaced(Words(event.content.value.parts)))
    ensures event.content.None? || event.content.value.role != "user" ==> UserMessageText(event) == ""
  {
    hide TrimSpace, IsTrimOf, Spaced, Words;
    if event.content.Some? {
      TextsAreSpaced("", event.content.value.parts);
      TrimSpaceTrims(AddTexts("", event.content.value.parts));
    }
  }

  // ----- The records -----

  /** An append that was answered saves one record: with the creation time it
      had, or now, and now for its last change.  A title it had stays;
      otherwise the summary of a user's message becomes the title. */
  lemma AppendSavesRecord(s: Store, key: Key, event: LogEvent, now: int, clock: int, faults: Faults)
    requires Complete(key) && !event.partial && DiskStep(s.disk, Append(key, event, now)).1.Done?
    requires !faults.list && !faults.save
    ensures var records := SyncStep(s, Append(key, event, now), clock, faults).0.records;
            && key in records && records == s.records[key := records[key]]
            && var record := records[key];
               && record.key == key && record.updatedAt == clock
               && record.createdAt == (if key in s.records then s.records[key].createdAt else clock)
               && record.title == if key in s.records && s.records[key].title != "" then s.records[key].title
                                  else if UserMessageText(event) == "" then ""
                                  else faults.summary.UnwrapOr("")
  {
    hide DiskStep, UserMessageText;
  }

  /** A created session gets an untitled record; a deleted one loses its
      record. */
  lemma CreateAndDeleteSave(s: Store, op: Op, clock: int, faults: Faults)
    requires Complete(op.key) && !faults.save && !faults.delete
    ensures var (s', reply) := SyncStep(s, op, clock, faults);
            && (op.Create? && reply.Session? ==> s'.records == s.records[op.key := Meta(op.key, "", clock, clock)])
            && (op.Delete? && reply.Done? ==> s'.records == s.records - {op.key})
  {
    hide DiskStep;
  }

  /** A call that is refused, a partial event and a read leave the records
      alone, and so does a metadata call that fails; the answer and the
      session are the same either way. */
  lemma FailedMetadataIsIgnored(s: Store, op: Op, clock: int, faults: Faults)
    ensures var (s', reply) := SyncStep(s, op, clock, faults);
            && (s'.disk, reply) == DiskStep(s.disk, op)
            && (reply.Refused? || op.Get? || (op.Append? && op.event.partial) ==> s'.records == s.records)
            && (op.Append? && (faults.list || faults.save) ==> s'.records == s.records)
            && (op.Create? && faults.save ==> s'.records == s.records)
            && (op.Delete? && faults.delete ==> s'.records == s.records)
  {
    hide DiskStep, UserMessageText;
    ReplyShape(s.disk, op);
  }
}
