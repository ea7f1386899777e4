/** The ranked queues of lib/riot/queues.ts and their display labels. */
module Queues {
  import opened Wrappers

  const QUEUE_SOLO: string := "RANKED_SOLO_5x5"
  const QUEUE_FLEX: string := "RANKED_FLEX_SR"

  datatype QueueOption = QueueOption(value: string, caption: string)

  /** `QUEUE_OPTIONS`. */
  const QUEUE_OPTIONS: seq<QueueOption> := [
    QueueOption(QUEUE_SOLO, "Solo/Duo"),
    QueueOption(QUEUE_FLEX, "Flex 5v5")
  ]

  /** `queueLabelMap`, built from the options. */
  function QueueLabelMap(): map<string, string> {
    map o | o in QUEUE_OPTIONS :: o.value := o.caption
  }

  /** One of the queue types the options offer. */
  predicate IsQueueType(q: string) {
    exists o :: o in QUEUE_OPTIONS && o.value == q
  }

  /** `getQueueLabel`: the label of a known queue, and "Solo/Duo" for a missing, empty or unknown one. */
  function GetQueueLabel(queueType: Option<string>): (shown: string)
    ensures exists o :: o in QUEUE_OPTIONS && o.caption == shown
    ensures queueType.Some? && queueType.value == QUEUE_FLEX ==> shown == "Flex 5v5"
    ensures !(queueType.Some? && queueType.value == QUEUE_FLEX) ==> shown == "Solo/Duo"
  {
    var labels := QueueLabelMap();
    assert QUEUE_OPTIONS[0] in QUEUE_OPTIONS && QUEUE_OPTIONS[1] in QUEUE_OPTIONS;
    assert labels == map[QUEUE_SOLO := "Solo/Duo", QUEUE_FLEX := "Flex 5v5"];
    match queueType
    case None => "Solo/Duo"
    case Some(q) =>
      if q == "" then "Solo/Duo"
      else if q in labels then labels[q] else "Solo/Duo"
  }

  /** Each option's value labels as that option's caption. */
  lemma OptionLabels()
    ensures forall o :: o in QUEUE_OPTIONS ==> GetQueueLabel(Some(o.value)) == o.caption
    ensures QUEUE_OPTIONS[0].value != QUEUE_OPTIONS[1].value
  {
  }
}
