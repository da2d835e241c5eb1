/**
 * Checkpoint persistence of the trainer: `save_checkpoint` over the run
 * directory `data_dir/exp_name`, modelled as a map from file name to file
 * contents, and the resume block of `init` that reads it back.
 */
module Checkpoint {
  import opened Wrappers

  /** Stand-ins for the policy's parameters and the optimizer's state dict. */
  type Params = seq<real>
  type OptimizerState = seq<real>

  /** A value of the trainer-state record. */
  datatype Field = Count(n: nat) | Name(s: string) | Optim(state: OptimizerState)

  /** A saved file: a whole policy, or a trainer-state record. */
  datatype File = ModelFile(params: Params) | StateFile(fields: map<string, Field>)

  /** The run directory: absent, or present with its files. */
  datatype RunDir = Missing | Dir(files: map<string, File>)

  const StateName: string := "trainer_state.pt"
  const StateTmpName: string := "trainer_state.pt.tmp"

  predicate IsDigit(c: char) {
    '0' <= c <= '9'
  }

  predicate AllDigits(s: string) {
    forall i :: 0 <= i < |s| ==> IsDigit(s[i])
  }

  function DigitChar(d: nat): (c: char)
    requires d < 10
    ensures IsDigit(c) && c as int - '0' as int == d
  {
    ('0' as int + d) as char
  }

  /** `str(n)` for a non-negative integer: its decimal digits, no leading zeros. */
  function Decimal(n: nat): (s: string)
    ensures |s| >= 1 && AllDigits(s)
    ensures n >= 10 ==> s[0] != '0'
  {
    if n < 10 then [DigitChar(n)] else Decimal(n / 10) + [DigitChar(n % 10)]
  }

  /** The number a string of decimal digits denotes (leading zeros allowed). */
  function DecimalValue(s: string): nat
    requires AllDigits(s)
  {
    if |s| == 0 then 0
    else DecimalValue(s[..|s| - 1]) * 10 + (s[|s| - 1] as int - '0' as int)
  }

  function Zeros(k: nat): (z: string)
    ensures |z| == k && forall i :: 0 <= i < k ==> z[i] == '0'
  {
    seq(k, _ => '0')
  }

  /** Python's `{n:0Wd}` format: `s` left-padded with zeros to `width`. */
  function ZeroPad(s: string, width: nat): (r: string)
    ensures |r| >= width && |r| >= |s|
    ensures AllDigits(s) ==> AllDigits(r)
  {
    if |s| >= width then s else Zeros(width - |s|) + s
  }

  /**
   * `f'model_{update:06d}.pt'`: the prefix `model_`, at least six decimal
   * digits, and the suffix `.pt`.
   */
  function ModelName(update: nat): (r: string)
    ensures |r| >= 15 && r[..6] == "model_" && r[|r| - 3..] == ".pt"
    ensures AllDigits(r[6..|r| - 3])
  {
    "model_" + ZeroPad(Decimal(update), 6) + ".pt"
  }

  /** Reads the update index back out of a model file name. */
  function ParseModelName(name: string): Option<nat> {
    if |name| >= 15 && name[..6] == "model_" && name[|name| - 3..] == ".pt" && AllDigits(name[6..|name| - 3])
    then Some(DecimalValue(name[6..|name| - 3]))
    else None
  }

  lemma {:induction false} DecimalRoundTrip(n: nat)
    ensures DecimalValue(Decimal(n)) == n
  {
    if n >= 10 {
      DecimalRoundTrip(n / 10);
      var s := Decimal(n);
      assert s[..|s| - 1] == Decimal(n / 10);
    }
  }

  lemma {:induction false} LeadingZerosIgnored(k: nat, s: string)
    requires AllDigits(s)
    ensures AllDigits(Zeros(k) + s) && DecimalValue(Zeros(k) + s) == DecimalValue(s)
    decreases |s|
  {
    var z := Zeros(k) + s;
    if |s| == 0 {
      assert z == Zeros(k);
      ZerosValue(k);
    } else {
      assert z[..|z| - 1] == Zeros(k) + s[..|s| - 1];
      LeadingZerosIgnored(k, s[..|s| - 1]);
    }
  }

  lemma {:induction false} ZerosValue(k: nat)
    ensures DecimalValue(Zeros(k)) == 0
  {
    if k > 0 {
      assert Zeros(k)[..k - 1] == Zeros(k - 1);
      ZerosValue(k - 1);
    }
  }

  /**
   * The model file name encodes its update index losslessly: parsing it
   * gives the index back, so two updates never share a model file.
   */
  lemma ModelNameRoundTrip(update: nat)
    ensures ParseModelName(ModelName(update)) == Some(update)
  {
    var digits := ZeroPad(Decimal(update), 6);
    var name := ModelName(update);
    DecimalRoundTrip(update);
    if |Decimal(update)| < 6 {
      LeadingZerosIgnored(6 - |Decimal(update)|, Decimal(update));
    }
    assert |digits| >= 6;
    assert name[..6] == "model_";
    assert name[|name| - 3..] == ".pt";
    assert name[6..|name| - 3] == digits;
  }

  lemma ModelNameInjective(u: nat, v: nat)
    requires ModelName(u) == ModelName(v)
    ensures u == v
  {
    ModelNameRoundTrip(u);
    ModelNameRoundTrip(v);
  }

  /** The record `save_checkpoint` writes to `trainer_state.pt`. */
  function TrainerRecord(update: nat, globalStep: nat, optimizer: OptimizerState, modelName: string): map<string, Field> {
    map[
      "optimizer_state_dict" := Optim(optimizer),
      "global_step" := Count(globalStep),
      "agent_step" := Count(globalStep),
      "update" := Count(update),
      "model_name" := Name(modelName)]
  }

  /** `os.rename(src, dst)`: the contents move and `src` disappears. */
  function Rename(files: map<string, File>, src: string, dst: string): (r: map<string, File>)
    requires src in files
    ensures dst in r && r[dst] == files[src]
    ensures src != dst ==> src !in r
    ensures forall k :: k in files && k != src && k != dst ==> k in r && r[k] == files[k]
    ensures forall k :: k in r ==> k == dst || k in files
  {
    (files - {src})[dst := files[src]]
  }

  /** What `save_checkpoint` leaves behind and the model path it returns. */
  datatype Saved = Saved(dir: RunDir, path: string)

  /**
   * `save_checkpoint`: creates the directory if needed; if the model file for
   * `update` already exists it changes nothing; otherwise it writes the model
   * file, writes the trainer record to a temporary file and renames that onto
   * `trainer_state.pt`.
   */
  function Save(dir: RunDir, update: nat, globalStep: nat, params: Params, optimizer: OptimizerState): (s: Saved)
    ensures s.dir.Dir? && s.path == ModelName(update)
    ensures dir.Dir? && ModelName(update) in dir.files ==> s.dir == dir
    ensures ModelName(update) in s.dir.files
    ensures s.dir.files[ModelName(update)] == (if dir.Dir? && ModelName(update) in dir.files then dir.files[ModelName(update)] else ModelFile(params))
    ensures StateTmpName in s.dir.files ==> dir.Dir? && s.dir == dir
    ensures !(dir.Dir? && ModelName(update) in dir.files) ==>
      StateName in s.dir.files &&
      s.dir.files[StateName] == StateFile(TrainerRecord(update, globalStep, optimizer, ModelName(update)))
    ensures dir.Dir? ==> forall k :: k in dir.files && k != StateName && k != StateTmpName ==>
      k in s.dir.files && s.dir.files[k] == dir.files[k]
    ensures forall k :: k in s.dir.files ==> k == ModelName(update) || k == StateName || (dir.Dir? && k in dir.files)
  {
    var files := if dir.Missing? then map[] else dir.files;
    var name := ModelName(update);
    assert name[0] == 'm' && StateName[0] == 't' && StateTmpName[0] == 't';
    if name in files then Saved(Dir(files), name)
    else
      var withModel := files[name := ModelFile(params)];
      var withTmp := withModel[StateTmpName := StateFile(TrainerRecord(update, globalStep, optimizer, name))];
      Saved(Dir(Rename(withTmp, StateTmpName, StateName)), name)
  }

  /**
   * A second save for the same update changes nothing and returns the same
   * path, whatever counters or parameters it is given.
   */
  lemma SaveIdempotent(dir: RunDir, update: nat, globalStep: nat, params: Params, optimizer: OptimizerState,
                       globalStep': nat, params': Params, optimizer': OptimizerState)
    ensures var first := Save(dir, update, globalStep, params, optimizer);
      Save(first.dir, update, globalStep', params', optimizer') == first
  {
  }

  /** State restored at start-up; `None` means freshly initialised. */
  datatype Resumed = Resumed(params: Option<Params>, optimizer: Option<OptimizerState>,
                             globalStep: nat, agentStep: nat, update: nat)

  /** Why loading the run directory raises. */
  datatype ResumeError = MissingFile(file: string) | MissingKey(key: string) | WrongKind(key: string)

  /** `resume_state.get(key, 0)`. */
  function CountOrZero(fields: map<string, Field>, key: string): Result<nat, ResumeError> {
    if key !in fields then Ok(0)
    else if fields[key].Count? then Ok(fields[key].n)
    else Err(WrongKind(key))
  }

  /**
   * `state` is what the trainer record in `files` names: the parameters of
   * the model file under `model_name`, the record's optimizer state and its
   * `update`, with each step counter the record's value or 0 when absent.
   */
  predicate RestoredFrom(files: map<string, File>, state: Resumed) {
    && StateName in files && files[StateName].StateFile?
    && var fields := files[StateName].fields;
    && "model_name" in fields && fields["model_name"].Name?
    && var modelName := fields["model_name"].s;
    && modelName in files && files[modelName].ModelFile?
    && state.params == Some(files[modelName].params)
    && state.optimizer.Some?
    && "optimizer_state_dict" in fields && fields["optimizer_state_dict"] == Optim(state.optimizer.value)
    && "update" in fields && fields["update"] == Count(state.update)
    && (if "global_step" in fields then fields["global_step"] == Count(state.globalStep) else state.globalStep == 0)
    && (if "agent_step" in fields then fields["agent_step"] == Count(state.agentStep) else state.agentStep == 0)
  }

  /**
   * A trainer record beside the model file it names is read back as the
   * state it was written from, with the agent step equal to the global step.
   */
  lemma TrainerRecordRestores(files: map<string, File>, update: nat, globalStep: nat, optimizer: OptimizerState,
                              modelName: string, params: Params)
    requires StateName in files && files[StateName] == StateFile(TrainerRecord(update, globalStep, optimizer, modelName))
    requires modelName in files && files[modelName] == ModelFile(params)
    ensures RestoredFrom(files, Resumed(Some(params), Some(optimizer), globalStep, globalStep, update))
  {
  }

  /**
   * The resume block of `init`, with its status message naming the model
   * file it loaded. A missing directory is a cold start with zero counters;
   * a present directory must hold a trainer record that names an existing
   * model file.
   */
  function Resume(dir: RunDir): (r: Result<Resumed, ResumeError>)
    ensures dir.Missing? ==> r == Ok(Resumed(None, None, 0, 0, 0))
    ensures dir.Dir? && StateName !in dir.files ==> r == Err(MissingFile(StateName))
    ensures r.Ok? && dir.Dir? ==> r.value.params.Some? && r.value.optimizer.Some?
    ensures r.Ok? && dir.Dir? ==> RestoredFrom(dir.files, r.value)
  {
    if dir.Missing? then Ok(Resumed(None, None, 0, 0, 0))
    else if StateName !in dir.files || !dir.files[StateName].StateFile? then Err(MissingFile(StateName))
    else
      var fields := dir.files[StateName].fields;
      if "model_name" !in fields then Err(MissingKey("model_name"))
      else if !fields["model_name"].Name? then Err(WrongKind("model_name"))
      else if "optimizer_state_dict" !in fields then Err(MissingKey("optimizer_state_dict"))
      else if !fields["optimizer_state_dict"].Optim? then Err(WrongKind("optimizer_state_dict"))
      else
        var modelName := fields["model_name"].s;
        if modelName !in dir.files || !dir.files[modelName].ModelFile? then Err(MissingFile(modelName))
        else if "update" !in fields then Err(MissingKey("update"))
        else
          match (CountOrZero(fields, "global_step"), CountOrZero(fields, "agent_step"), CountOrZero(fields, "update"))
          case (Ok(globalStep), Ok(agentStep), Ok(update)) =>
            Ok(Resumed(Some(dir.files[modelName].params), Some(fields["optimizer_state_dict"].state),
                       globalStep, agentStep, update))
          case (Err(e), _, _) => Err(e)
          case (_, Err(e), _) => Err(e)
          case (_, _, Err(e)) => Err(e)
  }

  /**
   * Resuming from a directory the save just wrote restores the saved
   * parameters, optimizer state, update index and global step, with the agent
   * step equal to the global step.
   */
  lemma ResumeAfterSave(dir: RunDir, update: nat, globalStep: nat, params: Params, optimizer: OptimizerState)
    requires !(dir.Dir? && ModelName(update) in dir.files)
    ensures Resume(Save(dir, update, globalStep, params, optimizer).dir)
      == Ok(Resumed(Some(params), Some(optimizer), globalStep, globalStep, update))
  {
    var files := Save(dir, update, globalStep, params, optimizer).dir.files;
    var fields := TrainerRecord(update, globalStep, optimizer, ModelName(update));
    assert files[StateName] == StateFile(fields);
    assert fields["model_name"] == Name(ModelName(update));
  }

  /**
   * The resume block as written: its status message also reads
   * `resume_state["policy_checkpoint_name"]`, a key the save never writes.
   */
  function ResumeAsWritten(dir: RunDir): (r: Result<Resumed, ResumeError>)
    ensures dir.Missing? ==> r == Ok(Resumed(None, None, 0, 0, 0))
  {
    match Resume(dir)
    case Err(e) => Err(e)
    case Ok(resumed) =>
      if dir.Dir? && "policy_checkpoint_name" !in dir.files[StateName].fields
      then Err(MissingKey("policy_checkpoint_name"))
      else Ok(resumed)
  }

  /** As written, resuming from any checkpoint the save itself wrote raises a `KeyError`. */
  lemma ResumeAsWrittenRejectsOwnCheckpoint(dir: RunDir, update: nat, globalStep: nat, params: Params, optimizer: OptimizerState)
    requires !(dir.Dir? && ModelName(update) in dir.files)
    ensures ResumeAsWritten(Save(dir, update, globalStep, params, optimizer).dir)
      == Err(MissingKey("policy_checkpoint_name"))
  {
    ResumeAfterSave(dir, update, globalStep, params, optimizer);
  }
}
