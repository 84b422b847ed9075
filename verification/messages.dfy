/** The message of the error raised when no record survives normalisation. It
    reports how many records were skipped as unparseable, and only when that
    number is positive. */
module Messages {
  import opened Wrappers
  import opened Decimal

  const NoRecordsHead := "No valid pricing data records found after processing."
  const NoRecordsTail := " This may indicate: (1) No data available for the selected date range, (2) API response structure changed, or (3) All records had parsing errors."
  const SkipNotePrefix := " Skipped "
  const SkipNoteSuffix := " invalid records."

  /** The sentence reporting the skip count; empty when nothing was skipped. */
  function SkipNote(skipped: nat): string {
    if skipped > 0 then SkipNotePrefix + Show(skipped) + SkipNoteSuffix else ""
  }

  function NoRecordsMessage(skipped: nat): string {
    NoRecordsHead + SkipNote(skipped) + NoRecordsTail
  }

  /** The count a skip-count sentence reports, if the text is one. */
  function ReadSkipNote(note: string): Option<nat> {
    var lo := |SkipNotePrefix|;
    var hi := |note| - |SkipNoteSuffix|;
    if lo < hi && note[..lo] == SkipNotePrefix && note[hi..] == SkipNoteSuffix && AllDigits(note[lo..hi])
    then Some(Value(note[lo..hi]))
    else None
  }

  /** The skip count a reader finds in a no-records message: the text between
      the fixed head and tail, read as a skip-count sentence. */
  function ReportedSkips(msg: string): Option<nat> {
    var lo := |NoRecordsHead|;
    var hi := |msg| - |NoRecordsTail|;
    if lo <= hi && msg[..lo] == NoRecordsHead && msg[hi..] == NoRecordsTail
    then ReadSkipNote(msg[lo..hi])
    else None
  }

  /** The message reports the skip count exactly when it is positive, and then
      reports the right number. */
  lemma ReportedSkipsOfMessage(skipped: nat)
    ensures ReportedSkips(NoRecordsMessage(skipped)) == if skipped > 0 then Some(skipped) else None
  {
    var note := SkipNote(skipped);
    var msg := NoRecordsMessage(skipped);
    assert msg[..|NoRecordsHead|] == NoRecordsHead;
    assert msg[|msg| - |NoRecordsTail|..] == NoRecordsTail;
    assert msg[|NoRecordsHead|..|msg| - |NoRecordsTail|] == note;
    if skipped > 0 {
      var digits := Show(skipped);
      var lo := |SkipNotePrefix|;
      var hi := |note| - |SkipNoteSuffix|;
      assert note[..lo] == SkipNotePrefix;
      assert note[hi..] == SkipNoteSuffix;
      assert note[lo..hi] == digits;
      ValueOfShow(skipped);
    }
  }
}
