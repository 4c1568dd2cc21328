/** The two Mongoose builders the core touches. A `Query` is recorded as the
    log of the operations applied to it; each builder call appends one entry
    and returns the query itself, so calls chain. An `Aggregate` holds its
    pipeline of stages. Running either against the database is not part of
    the model. */
module Queries {
  import opened Json

  datatype QueryOp =
    | Find(conditions: Value)
    | SortBy(fields: string)
    | Select(fields: string)
    | Skip(count: int)
    | Limit(count: int)

  class Query {
    var ops: seq<QueryOp>

    /** `Model.find(conditions)`. */
    constructor (conditions: Value)
      ensures ops == [QueryOp.Find(conditions)]
    {
      ops := [QueryOp.Find(conditions)];
    }

    /** `query.find(conditions)`: adds conditions to those already given. */
    method Find(conditions: Value) returns (self: Query)
      modifies this
      ensures self == this && ops == old(ops) + [QueryOp.Find(conditions)]
    {
      ops := ops + [QueryOp.Find(conditions)];
      self := this;
    }

    method Sort(fields: string) returns (self: Query)
      modifies this
      ensures self == this && ops == old(ops) + [QueryOp.SortBy(fields)]
    {
      ops := ops + [QueryOp.SortBy(fields)];
      self := this;
    }

    method Select(fields: string) returns (self: Query)
      modifies this
      ensures self == this && ops == old(ops) + [QueryOp.Select(fields)]
    {
      ops := ops + [QueryOp.Select(fields)];
      self := this;
    }

    method Skip(count: int) returns (self: Query)
      modifies this
      ensures self == this && ops == old(ops) + [QueryOp.Skip(count)]
    {
      ops := ops + [QueryOp.Skip(count)];
      self := this;
    }

    method Limit(count: int) returns (self: Query)
      modifies this
      ensures self == this && ops == old(ops) + [QueryOp.Limit(count)]
    {
      ops := ops + [QueryOp.Limit(count)];
      self := this;
    }
  }

  class Aggregate {
    var stages: seq<Value>

    /** `Model.aggregate(stages)`. */
    constructor (stages: seq<Value>)
      ensures this.stages == stages
    {
      this.stages := stages;
    }

    /** `this.pipeline().unshift(stage)`. */
    method Unshift(stage: Value)
      modifies this
      ensures stages == [stage] + old(stages)
    {
      stages := [stage] + stages;
    }
  }
}
