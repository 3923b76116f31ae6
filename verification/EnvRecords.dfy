/** struct Env (inc/env.h) and what env_alloc and the IPC calls leave in it. */
module EnvRecords {
  import opened Mmu
  import opened EnvIds

  // struct Env, without env_link and env_pgdir
  datatype Env = Env(
    id: nat, parentId: nat, status: EnvStatus,
    ipcRecving: bool, ipcDstva: Word, ipcValue: Word, ipcFrom: nat, ipcPerm: nat
  )

  // env_alloc; the message fields keep what the slot's last owner received
  function Allocated(env: Env, slot: nat, parentId: nat): Env
    requires env.id < INT32_LIMIT && slot < NENV
  {
    env.(id := NextId(env.id, slot), parentId := parentId, status := Runnable, ipcRecving := false)
  }

  // sys_exofork
  function Forked(env: Env, slot: nat, parentId: nat): Env
    requires env.id < INT32_LIMIT && slot < NENV
  {
    Allocated(env, slot, parentId).(status := NotRunnable)
  }

  // sys_ipc_recv
  function Receiving(env: Env, dstva: Word): Env {
    env.(ipcRecving := true, ipcDstva := dstva, status := NotRunnable)
  }

  // The record of a receiver that has just been sent `value`; the page permission is stored
  // last, and only when no error came from the mapping.
  function Delivered(env: Env, from: nat, value: Word): Env {
    env.(ipcFrom := from, ipcValue := value, ipcRecving := false, status := Runnable)
  }

  // Whether a page goes along with a message.
  predicate WithPage(env: Env, srcva: Word) { srcva < UTOP && env.ipcDstva < UTOP }
}
