/** base/lib/redisKeys/redisKeys.go: the cache key of every entity. */
module RedisKeys {
  import Decimal

  /** One call of a key builder. */
  datatype KeyCall =
    | UserInfo(id: int)
    | ServerInfo(id: int)
    | ChannelInfo(id: int)
    | InviteInfo(code: string)
    | InviteUsedCount(code: string)
    | UseCountLuaScript

  function CacheKey(call: KeyCall): (key: string) {
    match call
    case UserInfo(id) => "discore:user:" + Decimal.PrintInt(id) + ":info"
    case ServerInfo(id) => "discore:server:" + Decimal.PrintInt(id) + ":info"
    case ChannelInfo(id) => "discore:channel:" + Decimal.PrintInt(id) + ":info"
    case InviteInfo(code) => "discore:server_invite:" + code + ":info"
    case InviteUsedCount(code) => "discore:server_invite:" + code + ":used_count"
    case UseCountLuaScript => "server_invite:used_count:lua_script"
  }

  /** The text before the argument. */
  function Prefix(call: KeyCall): (s: string) {
    match call
    case UserInfo(_) => "discore:user:"
    case ServerInfo(_) => "discore:server:"
    case ChannelInfo(_) => "discore:channel:"
    case InviteInfo(_) => "discore:server_invite:"
    case InviteUsedCount(_) => "discore:server_invite:"
    case UseCountLuaScript => "server_invite:used_count:lua_script"
  }

  function Argument(call: KeyCall): (s: string) {
    match call
    case UserInfo(id) => Decimal.PrintInt(id)
    case ServerInfo(id) => Decimal.PrintInt(id)
    case ChannelInfo(id) => Decimal.PrintInt(id)
    case InviteInfo(code) => code
    case InviteUsedCount(code) => code
    case UseCountLuaScript => ""
  }

  function Suffix(call: KeyCall): (s: string) {
    match call
    case InviteUsedCount(_) => ":used_count"
    case UseCountLuaScript => ""
    case _ => ":info"
  }

  /** With equal outer parts the argument can be read back from the key. */
  lemma MiddleIsDetermined(p: string, a: string, b: string, s: string)
    requires p + a + s == p + b + s
    ensures a == b
  {
    var k := p + a + s;
    assert |a| == |b|;
    assert a == k[|p|..|p| + |a|];
    assert b == (p + b + s)[|p|..|p| + |b|];
  }

  lemma KeyParts(call: KeyCall)
    ensures CacheKey(call) == Prefix(call) + Argument(call) + Suffix(call)
  {
  }

  /** The characters that tell the builders apart: positions 0, 8 and 14, and the last one. */
  lemma KeyMarks(call: KeyCall)
    ensures var k := CacheKey(call);
            && |k| > 14
            && k[0] == (if call.UseCountLuaScript? then 's' else 'd')
            && (!call.UseCountLuaScript? ==>
                  && k[8] == Prefix(call)[8]
                  && (k[8] == 's' ==> k[14] == Prefix(call)[14])
                  && k[|k| - 1] == (if call.InviteUsedCount? then 't' else 'o'))
  {
    KeyParts(call);
    var k := CacheKey(call);
    if !call.UseCountLuaScript? {
      assert k[8] == Prefix(call)[8];
      assert k[|k| - 1] == Suffix(call)[|Suffix(call)| - 1];
    }
  }

  lemma PrefixMarks(call: KeyCall)
    requires !call.UseCountLuaScript?
    ensures |Prefix(call)| > 8
    ensures call.UserInfo? <==> Prefix(call)[8] == 'u'
    ensures call.ChannelInfo? <==> Prefix(call)[8] == 'c'
    ensures Prefix(call)[8] == 's' ==> |Prefix(call)| > 14 && (call.ServerInfo? <==> Prefix(call)[14] == ':')
    ensures Prefix(call)[8] in "ucs"
  {
  }

  /** The keys in full. */
  lemma KeysInFull()
    ensures CacheKey(UserInfo(7)) == "discore:user:7:info"
    ensures CacheKey(ServerInfo(7)) == "discore:server:7:info"
    ensures CacheKey(ChannelInfo(-7)) == "discore:channel:-7:info"
    ensures CacheKey(InviteInfo("abc")) == "discore:server_invite:abc:info"
    ensures CacheKey(InviteUsedCount("abc")) == "discore:server_invite:abc:used_count"
    ensures CacheKey(UseCountLuaScript) == "server_invite:used_count:lua_script"
  {
    assert Decimal.PrintInt(7) == "7" && Decimal.PrintInt(-7) == "-7";
  }

  /** Keys are equal only for calls of one builder, whatever the arguments. */
  lemma SameKeySameBuilder(a: KeyCall, b: KeyCall)
    requires CacheKey(a) == CacheKey(b)
    ensures Prefix(a) == Prefix(b) && Suffix(a) == Suffix(b)
    ensures a.UserInfo? == b.UserInfo? && a.ServerInfo? == b.ServerInfo? && a.ChannelInfo? == b.ChannelInfo?
    ensures a.InviteInfo? == b.InviteInfo? && a.InviteUsedCount? == b.InviteUsedCount?
  {
    KeyMarks(a);
    KeyMarks(b);
    if !a.UseCountLuaScript? && !b.UseCountLuaScript? {
      PrefixMarks(a);
      PrefixMarks(b);
    }
  }

  /** Two builder calls give one key only when they are the same call. */
  lemma CacheKeyInjective(a: KeyCall, b: KeyCall)
    ensures CacheKey(a) == CacheKey(b) <==> a == b
  {
    if CacheKey(a) == CacheKey(b) {
      SameKeySameBuilder(a, b);
      KeyParts(a);
      KeyParts(b);
      MiddleIsDetermined(Prefix(a), Argument(a), Argument(b), Suffix(a));
      if a.UserInfo? || a.ServerInfo? || a.ChannelInfo? {
        Decimal.PrintIntInjective(a.id, b.id);
      }
    }
  }
}
