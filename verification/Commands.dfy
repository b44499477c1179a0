/**
 The commands the cluster client knows, their names and their arity classes
 (harvester/producer-cli/command.c:15-290 and command.c:459-1026).
 */
module Commands {
  import opened Optional

  datatype CmdType =
    | Get | Set | Ttl | Del | Pttl | Decr | Dump | Hdel | Hget | Hlen | Hset | Incr | Llen | Lpop | Lrem
    | Lset | Rpop | Sadd | Spop | Srem | Type | Mget | Mset | Zadd | Zrem | Eval | Sort | Ping | Quit | Auth
    | Hkeys | Hmget | Hmset | Hvals | Hscan | Lpush | Ltrim | Rpush | Scard | Sdiff | Setex | Setnx | Smove
    | Sscan | Zcard | Zrank | Zscan | Pfadd | Append | Decrby | Exists | Expire | Getbit | Getset | Psetex
    | Hsetnx | Incrby | Lindex | Lpushx | Lrange | Rpushx | Setbit | Sinter | Strlen | Sunion | Zcount
    | Zrange | Zscore | Persist | Pexpire | Hexists | Hgetall | Hincrby | Linsert | Zincrby | Evalsha
    | Restore | Pfcount | Pfmerge | Expireat | Bitcount | Getrange | Setrange | Smembers | Zrevrank
    | Pexpireat | Rpoplpush | Sismember | Zrevrange | Zlexcount | Sdiffstore | Incrbyfloat | Sinterstore
    | Srandmember | Sunionstore | Zinterstore | Zunionstore | Zrangebylex | Hincrbyfloat | Zrangebyscore
    | Zremrangebylex | Zremrangebyrank | Zremrangebyscore | Zrevrangebyscore

  /** What follows the name. */
  datatype Arity =
    | Keyless
    | Fixed(args: nat)   // one key and exactly this many arguments
    | Variadic           // one key and any number of arguments
    | Keys               // one or more keys
    | Pairs              // one or more keys with their values
    | Script             // a text, a number of keys, keys and arguments

  function ArityOf(t: CmdType): Arity {
    match t
    case Ping | Quit => Keyless
    case Expire | Expireat | Pexpire | Pexpireat | Append | Decrby | Getbit | Getset | Incrby | Incrbyfloat |
      Setnx | Hexists | Hget | Lindex | Lpushx | Rpoplpush | Rpushx | Sismember | Zrank | Zrevrank | Zscore => Fixed(1)
    case Getrange | Psetex | Setbit | Setex | Setrange | Hincrby | Hincrbyfloat | Hset | Hsetnx | Lrange |
      Lrem | Lset | Ltrim | Smove | Zcount | Zlexcount | Zincrby | Zremrangebylex | Zremrangebyrank |
      Zremrangebyscore | Restore => Fixed(2)
    case Linsert => Fixed(3)
    case Bitcount | Set | Hdel | Hmget | Hmset | Hscan | Lpush | Rpush | Sadd | Sdiff | Sdiffstore | Sinter |
      Sinterstore | Srem | Sunion | Sunionstore | Srandmember | Sscan | Pfadd | Pfmerge | Zadd |
      Zinterstore | Zrange | Zrangebyscore | Zrem | Zrevrange | Zrangebylex | Zrevrangebyscore |
      Zunionstore | Zscan => Variadic
    case Mget | Del => Keys
    case Mset => Pairs
    case Eval | Evalsha => Script
    case _ => Fixed(0)
  }

  /** The name command_pre_fragment prints. */
  function NameOf(t: CmdType): string {
    if t == Mget then "mget" else if t == Del then "del" else "mset"
  }

  /** The comparisons below take a letter and the letter with bit 0x20 flipped for the same. */
  function Lower(c: char): char {
    if 'A' <= c <= 'Z' then (c as int + 32) as char else c
  }

  function LowerAll(s: string): (r: string)
    ensures |r| == |s| && forall i :: 0 <= i < |s| ==> r[i] == Lower(s[i])
  {
    if s == "" then "" else [Lower(s[0])] + LowerAll(s[1..])
  }

  function Named3(s: string): Option<CmdType>
    requires |s| == 3
  {
    if s == "get" then Some(Get)
    else if s == "set" then Some(Set)
    else if s == "ttl" then Some(Ttl)
    else if s == "del" then Some(Del)
    else None
  }

  function Named4(s: string): Option<CmdType>
    requires |s| == 4
  {
    if s == "pttl" then Some(Pttl)
    else if s == "decr" then Some(Decr)
    else if s == "dump" then Some(Dump)
    else if s == "hdel" then Some(Hdel)
    else if s == "hget" then Some(Hget)
    else if s == "hlen" then Some(Hlen)
    else if s == "hset" then Some(Hset)
    else if s == "incr" then Some(Incr)
    else if s == "llen" then Some(Llen)
    else if s == "lpop" then Some(Lpop)
    else if s == "lrem" then Some(Lrem)
    else if s == "lset" then Some(Lset)
    else if s == "rpop" then Some(Rpop)
    else if s == "sadd" then Some(Sadd)
    else if s == "spop" then Some(Spop)
    else if s == "srem" then Some(Srem)
    else if s == "type" then Some(Type)
    else if s == "mget" then Some(Mget)
    else if s == "mset" then Some(Mset)
    else if s == "zadd" then Some(Zadd)
    else if s == "zrem" then Some(Zrem)
    else if s == "eval" then Some(Eval)
    else if s == "sort" then Some(Sort)
    else if s == "ping" then Some(Ping)
    else if s == "quit" then Some(Quit)
    else if s == "auth" then Some(Auth)
    else None
  }

  function Named5(s: string): Option<CmdType>
    requires |s| == 5
  {
    if s == "hkeys" then Some(Hkeys)
    else if s == "hmget" then Some(Hmget)
    else if s == "hmset" then Some(Hmset)
    else if s == "hvals" then Some(Hvals)
    else if s == "hscan" then Some(Hscan)
    else if s == "lpush" then Some(Lpush)
    else if s == "ltrim" then Some(Ltrim)
    else if s == "rpush" then Some(Rpush)
    else if s == "scard" then Some(Scard)
    else if s == "sdiff" then Some(Sdiff)
    else if s == "setex" then Some(Setex)
    else if s == "setnx" then Some(Setnx)
    else if s == "smove" then Some(Smove)
    else if s == "sscan" then Some(Sscan)
    else if s == "zcard" then Some(Zcard)
    else if s == "zrank" then Some(Zrank)
    else if s == "zscan" then Some(Zscan)
    else if s == "pfadd" then Some(Pfadd)
    else None
  }

  function Named6(s: string): Option<CmdType>
    requires |s| == 6
  {
    if s == "append" then Some(Append)
    else if s == "decrby" then Some(Decrby)
    else if s == "exists" then Some(Exists)
    else if s == "expire" then Some(Expire)
    else if s == "getbit" then Some(Getbit)
    else if s == "getset" then Some(Getset)
    else if s == "psetex" then Some(Psetex)
    else if s == "hsetnx" then Some(Hsetnx)
    else if s == "incrby" then Some(Incrby)
    else if s == "lindex" then Some(Lindex)
    else if s == "lpushx" then Some(Lpushx)
    else if s == "lrange" then Some(Lrange)
    else if s == "rpushx" then Some(Rpushx)
    else if s == "setbit" then Some(Setbit)
    else if s == "sinter" then Some(Sinter)
    else if s == "strlen" then Some(Strlen)
    else if s == "sunion" then Some(Sunion)
    else if s == "zcount" then Some(Zcount)
    else if s == "zrange" then Some(Zrange)
    else if s == "zscore" then Some(Zscore)
    else None
  }

  function Named7(s: string): Option<CmdType>
    requires |s| == 7
  {
    if s == "persist" then Some(Persist)
    else if s == "pexpire" then Some(Pexpire)
    else if s == "hexists" then Some(Hexists)
    else if s == "hgetall" then Some(Hgetall)
    else if s == "hincrby" then Some(Hincrby)
    else if s == "linsert" then Some(Linsert)
    else if s == "zincrby" then Some(Zincrby)
    else if s == "evalsha" then Some(Evalsha)
    else if s == "restore" then Some(Restore)
    else if s == "pfcount" then Some(Pfcount)
    else if s == "pfmerge" then Some(Pfmerge)
    else None
  }

  function Named8(s: string): Option<CmdType>
    requires |s| == 8
  {
    if s == "expireat" then Some(Expireat)
    else if s == "bitcount" then Some(Bitcount)
    else if s == "getrange" then Some(Getrange)
    else if s == "setrange" then Some(Setrange)
    else if s == "smembers" then Some(Smembers)
    else if s == "zrevrank" then Some(Zrevrank)
    else None
  }

  function Named9(s: string): Option<CmdType>
    requires |s| == 9
  {
    if s == "pexpireat" then Some(Pexpireat)
    else if s == "rpoplpush" then Some(Rpoplpush)
    else if s == "sismember" then Some(Sismember)
    else if s == "zrevrange" then Some(Zrevrange)
    else if s == "zlexcount" then Some(Zlexcount)
    else None
  }

  function Named10(s: string): Option<CmdType>
    requires |s| == 10
  {
    if s == "sdiffstore" then Some(Sdiffstore)
    else None
  }

  function Named11(s: string): Option<CmdType>
    requires |s| == 11
  {
    if s == "incrbyfloat" then Some(Incrbyfloat)
    else if s == "sinterstore" then Some(Sinterstore)
    else if s == "srandmember" then Some(Srandmember)
    else if s == "sunionstore" then Some(Sunionstore)
    else if s == "zinterstore" then Some(Zinterstore)
    else if s == "zunionstore" then Some(Zunionstore)
    else if s == "zrangebylex" then Some(Zrangebylex)
    else None
  }

  function Named12(s: string): Option<CmdType>
    requires |s| == 12
  {
    if s == "hincrbyfloat" then Some(Hincrbyfloat)
    else None
  }

  function Named13(s: string): Option<CmdType>
    requires |s| == 13
  {
    if s == "zrangebyscore" then Some(Zrangebyscore)
    else None
  }

  function Named14(s: string): Option<CmdType>
    requires |s| == 14
  {
    if s == "zremrangebylex" then Some(Zremrangebylex)
    else None
  }

  function Named15(s: string): Option<CmdType>
    requires |s| == 15
  {
    if s == "zremrangebyrank" then Some(Zremrangebyrank)
    else None
  }

  function Named16(s: string): Option<CmdType>
    requires |s| == 16
  {
    if s == "zremrangebyscore" then Some(Zremrangebyscore)
    else if s == "zrevrangebyscore" then Some(Zrevrangebyscore)
    else None
  }

  /** The command a name denotes, in any mix of letter case. */
  function TypeOf(name: string): Option<CmdType> {
    var s := LowerAll(name);
    match |s|
    case 3 => Named3(s)
    case 4 => Named4(s)
    case 5 => Named5(s)
    case 6 => Named6(s)
    case 7 => Named7(s)
    case 8 => Named8(s)
    case 9 => Named9(s)
    case 10 => Named10(s)
    case 11 => Named11(s)
    case 12 => Named12(s)
    case 13 => Named13(s)
    case 14 => Named14(s)
    case 15 => Named15(s)
    case 16 => Named16(s)
    case _ => None
  }

  /** The commands that are split are recognised by their names in any mix of letter case. */
  lemma {:induction false} SplitNamesRecognised(name: string, t: CmdType)
    requires t in {Mget, Del, Mset} && LowerAll(name) == NameOf(t)
    ensures TypeOf(name) == Some(t)
  {
    hide LowerAll;
  }
}
