/** What each reply to a client request means. */
module Replies {
  import opened Vocabulary
  import opened DaemonSpec
  import opened System
  import opened Sessions
  import Index

  predicate Unlocked(w: World, e: Event)
    requires IsCall(e)
  {
    w.d.caller == "" || w.d.caller == e.caller
  }

  /** Every request but Clear is answered, and each answer is given for exactly these reasons. */
  lemma {:induction false} RepliesMean(w: World, e: Event)
    requires IsCall(e)
    ensures var reply, free, idle := ReplyTo(w, e), Unlocked(w, e), w.d.state == Idle;
      && (reply == None <==> e.CallClear?)
      && (reply == Some(Started) <==>
            || (e.CallEnroll? && free && idle && e.name !in w.d.names.Values)
            || (e.CallIdentify? && free && idle && w.d.names != map[])
            || (e.CallVerify? && free && idle)
            || (e.CallRemove? && free && idle && e.name in w.d.names.Values
                && !(0 in w.d.names && w.d.names[0] == e.name))
            || (e.CallAbort? && free && !idle))
      && (reply == Some(KeyAlreadyExists) <==> e.CallEnroll? && free && e.name in w.d.names.Values)
      && (reply == Some(NoKeysAvailable) <==> e.CallIdentify? && free && idle && w.d.names == map[])
      && (reply == Some(KeyDoesNotExist) <==>
            && e.CallRemove? && free && idle
            && (e.name !in w.d.names.Values || (0 in w.d.names && w.d.names[0] == e.name)))
      && (reply == Some(AlreadyIdle) <==> (e.CallAbort? && (!free || idle)) || (e.CallVerify? && !free))
      && (reply == Some(AlreadyBusy) <==>
            || (e.CallEnroll? && (!free || (!idle && e.name !in w.d.names.Values)))
            || (e.CallIdentify? && (!free || !idle))
            || (e.CallRemove? && (!free || !idle))
            || (e.CallVerify? && free && !idle))
  {
    if e.CallRemove? {
      Found(w.d.names, e.name);
    }
  }

  lemma {:induction false} Found(names: Index.Names, name: string)
    ensures Index.KeyOf(names, name) == 0 <==> name !in names.Values || (0 in names && names[0] == name)
  {
    var ks := Index.KeysNamed(names, name);
    assert forall k :: k in names && names[k] == name <==> k in ks;
    if ks == {} {
      assert name !in names.Values;
    } else {
      var least := Index.LeastKey(ks);
      assert least in names && names[least] == name;
    }
  }
}
