/** Model of pkg/idgen/global.go: a package-level default Snowflake generator that is installed once and
    then used by the package-level generate functions. */
module Global {
  import opened Words
  import opened Wrappers
  import opened Snowflake

  /** A call that either returns a value or panics. */
  datatype Call<T> = Returns(value: T) | Panics

  /** The package-level variable `defaultGenerator`, which is nil until something is installed. */
  class Defaults {
    var defaultGenerator: Snowflake?

    /** Whatever is installed is a generator in a reachable state. */
    ghost predicate Valid()
      reads this, defaultGenerator
    {
      defaultGenerator != null ==> defaultGenerator.Valid()
    }

    /** The package as loaded: nothing installed. */
    constructor ()
      ensures defaultGenerator == null
    {
      defaultGenerator := null;
    }

    /** SetDefaultMachineID: builds a generator with the default epoch and installs it. When the IDs are
        refused, the constructor's error is returned and the installed generator stays as it was. */
    method SetDefaultMachineID(processID: int64, workerID: int64) returns (err: Option<SnowflakeError>)
      requires Valid()
      modifies this
      ensures Valid()
      ensures err == CheckIDs(processID, workerID)
      ensures err.Some? ==> defaultGenerator == old(defaultGenerator)
      ensures err.None? ==>
                defaultGenerator != null && fresh(defaultGenerator) && defaultGenerator.State() == GenState(0, 0) &&
                defaultGenerator.ProcessID() == processID && defaultGenerator.WorkerID() == workerID &&
                defaultGenerator.Epoch() == DefaultEpoch
    {
      var generator := New(processID, workerID);
      if generator.Failure? {
        return Some(generator.error);
      }
      defaultGenerator := generator.value;
      return None;
    }

    /** SetDefaultGenerator: installs the given generator, nil included. */
    method SetDefaultGenerator(generator: Snowflake?)
      requires generator != null ==> generator.Valid()
      modifies this
      ensures Valid()
      ensures defaultGenerator == generator
    {
      defaultGenerator := generator;
    }

    /** GetDefaultGenerator: the generator last installed, or nil. */
    method GetDefaultGenerator() returns (generator: Snowflake?)
      ensures generator == defaultGenerator
    {
      generator := defaultGenerator;
    }

    /** GenerateSnowflake: panics when nothing is installed, and is otherwise the installed generator's
        Generate, with the same effect on its state. */
    method GenerateSnowflake(tick: Tick) returns (r: Call<int64>)
      requires Valid()
      requires defaultGenerator != null ==> Ready(defaultGenerator.State(), tick)
      modifies defaultGenerator
      ensures Valid()
      ensures r.Panics? <==> defaultGenerator == null
      ensures r.Returns? ==>
                var g := defaultGenerator;
                g.State() == Step(old(g.State()), tick) &&
                r.value == Pack(g.epoch, g.processID, g.workerID, g.lastTimestamp, g.sequence)
    {
      var gen := defaultGenerator;
      if gen == null {
        return Panics;
      }
      var id := gen.Generate(tick);
      return Returns(id);
    }

    /** GenerateSnowflakeBatch: panics when nothing is installed, and is otherwise the installed
        generator's GenerateBatch. */
    method GenerateSnowflakeBatch(count: int, ticks: seq<Tick>) returns (r: Call<seq<int64>>)
      requires Valid()
      requires defaultGenerator != null ==> 0 <= count <= |ticks| && ReadyAll(defaultGenerator.State(), ticks[..count])
      modifies defaultGenerator
      ensures Valid()
      ensures r.Panics? <==> defaultGenerator == null
      ensures r.Returns? ==>
                var g := defaultGenerator;
                g.State() == Run(old(g.State()), ticks[..count]) &&
                r.value == Emitted(g.epoch, g.processID, g.workerID, old(g.State()), ticks[..count]) &&
                |r.value| == count
    {
      var gen := defaultGenerator;
      if gen == null {
        return Panics;
      }
      var ids := gen.GenerateBatch(count, ticks);
      return Returns(ids);
    }
  }
}
