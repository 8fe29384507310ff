// The two guarded edits of ServiceFWD.PortForwards, shared by the interleaving model and the reconciler.
module ForwardMap {

  /** AddServicePod: the first forward to claim the key keeps it. */
  function Added<F>(m: map<string, F>, key: string, f: F): map<string, F> {
    if key in m then m else m[key := f]
  }

  /** removeOwnForward: the entry goes only when it is this very forward. */
  function RemovedOwn<F(==)>(m: map<string, F>, key: string, f: F): map<string, F> {
    if key in m && m[key] == f then m - {key} else m
  }
}
