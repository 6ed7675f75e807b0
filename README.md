# FVM machine: result model and execution context

A Dafny model of the machine module of the Filecoin Virtual Machine reference
implementation (`fvm/src/machine/mod.rs`). The module defines what applying a
message returns and the context a machine runs in:

- the two reserved protocol addresses: the reward actor (ID address 2) and the
  burnt-funds account actor (ID address 99);
- `CallError`, one backtrace entry, whose `source` is the faulting actor or 0
  for an error raised at syscall level;
- `ApplyRet`, the result of applying a message: the on-chain `Receipt` (exit
  code, return bytes, gas used), the backtrace, the penalty and the miner tip;
- `ApplyRet::prevalidation_fail`, the result of a message rejected before
  execution: zero gas, empty return data, a single syscall-level backtrace entry
  carrying the rejection's message and exit code, the given penalty and no tip;
- `ApplyKind`, explicit (user-signed) or implicit (protocol-issued) messages;
- `MachineContext`, the epoch, base fee, initial state root, price list and
  network version, fixed by `new` and read by five accessors.

`shared.dfy` holds the value types borrowed from the shared crate (actor IDs as
unsigned 64-bit values, chain epochs as signed 64-bit values, exit codes, token
amounts as unbounded integers, content identifiers, network versions, ID
addresses, receipts). `machine.dfy` holds the module itself. Everything is a
value: the source's types have no mutating methods, so the model is datatypes,
functions and lemmas. `ApplyRet::prevalidation_fail` and `MachineContext::new`
become the static functions `ApplyRet.PrevalidationFail` and
`MachineContext.New`; the getters `epoch`, `base_fee`, `state_root`,
`network_version` and `price_list` become `Epoch`, `BaseFee`, `StateRoot`,
`NetworkVersion` and `PriceList`, whose meaning is stated by the contract of
`New`.
The price list is a type parameter of `MachineContext`: it is carried, never
inspected.

The doc comment on `MachineContext` says the state root "gets updated
internally with every message execution". No method of `MachineContext`
changes it, and `state_root()` returns the `initial_state_root` given to `new`.
The `default` submodule (declared at fvm/src/machine/mod.rs:24), which Rust
privacy lets assign the private fields and call `new`, is not part of this
model. The model takes the context as immutable, following the type's own
methods: `StateRoot()` is always the initial root.

## Model

| member | source | states |
|---|---|---|
| `Machine.ReservedAddresses` | fvm/src/machine/mod.rs:27-29 | the reward actor is ID address 2, the burnt-funds actor ID address 99, so the two reserved addresses differ |
| `Machine.ApplyRet.PrevalidationFail` | fvm/src/machine/mod.rs:89-107 | for every error and penalty (total, no precondition): the receipt has zero gas, empty return data and the error's exit code; the backtrace has exactly one entry, a syscall-level one (source 0) carrying the error's code and message; the penalty is the miner penalty given and the tip is zero |
| `Machine.ApplyRet.RejectionOf` | fvm/src/machine/mod.rs:91-106 | from any result of the prevalidation-failure shape, the rejecting error is recovered, and rebuilding with it and the result's penalty gives the same result back |
| `Machine.PrevalidationFailImage` | fvm/src/machine/mod.rs:65-106 | a result has the prevalidation-failure shape (no gas, no return data, no tip, one syscall backtrace entry with the receipt's exit code) if and only if some error and penalty produce it |
| `Machine.PrevalidationFailInjective` | fvm/src/machine/mod.rs:91-106 | equal inputs give equal results (determinism) and equal results come only from equal inputs |
| `Machine.MachineContext.New` | fvm/src/machine/mod.rs:131-165 | after construction, the epoch, base fee, network version and price list accessors return exactly the arguments given, and the state root accessor returns the state root given as the initial root |
| `Machine.ContextBuiltByNew` | fvm/src/machine/mod.rs:114-145 | every context is the one `new` builds from what its accessors return, and no other arguments build it |
| `Machine.ContextEquality` | fvm/src/machine/mod.rs:147-165 | two contexts are equal exactly when all five accessors agree, so the accessors expose the whole, unchangeable context |

## Left out

- The `Machine` trait (fvm/src/machine/mod.rs:31-56): its methods are signatures only; the implementing default machine is not part of this model, so `create_actor`, `transfer`, `config` and `state_tree_mut` get no contracts.
- `Machine::engine` and `Machine::load_module`: they wrap compilation of sandboxed modules by a foreign execution engine.
- `Machine::blockstore`, `state_tree` and `externs`: the content-addressed store and the external-data provider are an I/O boundary whose internals are not shown.
- The `Executor` trait and `execute_message` (fvm/src/machine/mod.rs:58-63): a signature only; sequence and funds validation and the refund, tip and penalty computation are not part of this model.
- The price list's contents and the machine configuration: the price list is an opaque type parameter.
- Exit codes are modelled as non-negative integers; their fixed width and their partition into failure classes are not modelled.
- The receipt's gas field is an unbounded integer; its fixed width is not modelled (prevalidation failures set it to 0).
- Addresses of protocols other than ID are not modelled; the reserved addresses are both ID addresses.
- `MachineContext`: any update of the initial state root by the default machine (fvm/src/machine/mod.rs:115-116) is not modelled; the context is taken as immutable.
- Field privacy of `MachineContext` and the privacy of `new` are not expressible on Dafny datatypes; immutability is captured by the context being a value with no updating operation.
