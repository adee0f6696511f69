/** Small types shared by the models. */
module Common {

  datatype Option<+T> = None | Some(value: T)

  /** Identifies a thread. */
  type Tid = nat

  /** The DAH_* commands of an action helper: what an action does to the connection it runs on. */
  datatype Command = NoChange | Acquire | Release

  lemma SomeThread(threads: set<Tid>) returns (t: Tid)
    requires threads != {}
    ensures t in threads
  {
    t :| t in threads;
  }
}
