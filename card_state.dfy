/**
  The invariants of the card's state, stated on values: the slot indices, the
  three interval handles, the day cache and the caching job.
*/
module CardState {
  import opened Wrappers
  import opened TimeGrid
  import opened Rooms
  import opened DayCache

  /** The state of the day-cache job between its awaits. */
  datatype CacheJob =
    | Idle
    | Fetching                              // the null prefill is done, the hourly batch is awaited
    | Filling(next: nat, hourly: Hourly)    // slots before `next` are resolved; the loop has yielded

  /** Both indices on the grid and the picker on a month (0 to 11). */
  predicate IndicesShape(currentTimeIndex: int, maxTimeIndex: int, pickerMonth: int) {
    0 <= currentTimeIndex <= LastSlot && 0 <= maxTimeIndex <= LastSlot && 0 <= pickerMonth <= 11
  }

  /** The card's three interval handles and the next handle the host hands out. */
  datatype Timers = Timers(
    playInterval: Option<nat>,
    refreshInterval: Option<nat>,
    autoSlideInterval: Option<nat>,
    nextTimer: nat)

  /** The three interval handles are pairwise distinct and issued before
      `nextTimer`; none runs before the first render, and a play interval runs
      only while playing. */
  predicate TimersShape(t: Timers, rendered: bool, isPlaying: bool) {
    && (t.playInterval.Some? ==> t.playInterval.value < t.nextTimer)
    && (t.refreshInterval.Some? ==> t.refreshInterval.value < t.nextTimer)
    && (t.autoSlideInterval.Some? ==> t.autoSlideInterval.value < t.nextTimer)
    && (t.playInterval.Some? && t.refreshInterval.Some? ==> t.playInterval != t.refreshInterval)
    && (t.playInterval.Some? && t.autoSlideInterval.Some? ==> t.playInterval != t.autoSlideInterval)
    && (t.refreshInterval.Some? && t.autoSlideInterval.Some? ==> t.refreshInterval != t.autoSlideInterval)
    && (t.playInterval.Some? || t.refreshInterval.Some? || t.autoSlideInterval.Some? ==> rendered)
    && (t.playInterval.Some? ==> isPlaying)
  }

  /** The caching flags of the card (`isCaching`, `cachePromise`, `cacheProgress`),
      the next promise the job hands out, and where the job stands. */
  datatype Caching = Caching(
    isCaching: bool,
    cachePromise: Option<nat>,
    nextPromise: nat,
    cacheProgress: nat,
    job: CacheJob)

  /** A job runs exactly while there is a promise, and then `isCaching` is set
      (it can also be left set with no job, by a call that threw before its
      promise was made); the promise was handed out, and a yielded fill
      reports the progress of its last resolved slot. */
  predicate JobShape(c: Caching) {
    && (c.cachePromise.Some? <==> !c.job.Idle?)
    && (!c.job.Idle? ==> c.isCaching)
    && (c.cachePromise.Some? ==> c.cachePromise.value < c.nextPromise)
    && c.cacheProgress <= 100
    && (c.job.Filling? ==> 1 <= c.job.next <= LastSlot && c.cacheProgress == Progress(c.job.next - 1))
  }
}
