/** The current path of an FTP client in src/ftpvita.c: CWD, CDUP, and the full path of a command's
    argument. */
module CurPath {
  import opened Common

  /** strrchr(path, '/') as an offset. */
  function LastSlash(path: string): (k: nat)
    requires '/' in path
    ensures k < |path| && path[k] == '/' && '/' !in path[k + 1..]
  {
    if path[|path| - 1] == '/' then |path| - 1 else LastSlash(path[..|path| - 1])
  }

  lemma {:induction false} LastSlashIs(path: string, k: nat)
    requires k < |path| && path[k] == '/' && '/' !in path[k + 1..]
    ensures LastSlash(path) == k
  {
    if k < |path| - 1 {
      var shorter := path[..|path| - 1];
      assert path[|path| - 1] == path[k + 1..][|path| - 2 - k];
      assert shorter[k + 1..] == path[k + 1..][..|path| - 2 - k];
      LastSlashIs(shorter, k);
    }
  }

  /** path_is_at_root: the last character is a slash. */
  predicate AtRoot(path: string) {
    path != "" && path[|path| - 1] == '/'
  }

  /** What every current path is: "/", or a path from "/" with a second slash. */
  predicate Good(path: string) {
    path == "/" || (path != "" && path[0] == '/' && LastSlash(path) > 0)
  }

  /** A path of only one slash, at its start, gets a second one. */
  function WithSecondSlash(path: string): string {
    if '/' in path && LastSlash(path) == 0 then path + "/" else path
  }

  /** dir_up. */
  function DirUp(path: string): string
    requires '/' in path
  {
    if |path| == 1 || AtRoot(path) then "/" else WithSecondSlash(path[..LastSlash(path)])
  }

  /** The directory that CWD asks for, for an argument other than "/" and "..". */
  function Target(cur: string, arg: string): string
    requires arg != ""
  {
    WithSecondSlash(if arg[0] == '/' then arg else if AtRoot(cur) then cur + arg else cur + "/" + arg)
  }

  /** sscanf with "%[^\r\n\t]": up to the first of these characters. */
  function Argument(args: string): (arg: string)
    ensures arg <= args && forall c :: c in arg ==> c !in "\r\n\t"
    ensures |arg| < |args| ==> args[|arg|] in "\r\n\t"
  {
    if args == "" || args[0] in "\r\n\t" then "" else [args[0]] + Argument(args[1..])
  }

  /** The current path after CWD, or None if the command is refused. `found` tells whether the
      directory asked for can be opened. */
  function Cwd(cur: string, args: string, found: bool): Option<string>
    requires '/' in cur
  {
    var arg := Argument(args);
    if arg == "" then None
    else if arg == "/" then Some("/")
    else if arg == ".." then Some(DirUp(cur))
    else if Target(cur, arg) != "/" && !found then None
    else Some(Target(cur, arg))
  }

  datatype Reply = SyntaxError | InvalidDirectory | Okay

  class Client {
    var cur_path: string

    constructor ()
      ensures cur_path == "/"
    {
      cur_path := "/";
    }

    method DirUpInPlace()
      requires '/' in cur_path
      modifies this
      ensures cur_path == DirUp(old(cur_path))
    {
      if |cur_path| == 1 {
        cur_path := "/";
        return;
      }
      if AtRoot(cur_path) {
        cur_path := "/";
      } else {
        cur_path := cur_path[..LastSlash(cur_path)];
        if '/' in cur_path && LastSlash(cur_path) == 0 {
          cur_path := cur_path + "/";
        }
      }
    }

    /** cmd_CWD_func. */
    method CWD(args: string, opens: string -> bool) returns (reply: Reply)
      requires Good(cur_path)
      modifies this
      ensures Good(cur_path)
      ensures var arg := Argument(args);
        && (reply == SyntaxError <==> arg == "")
        && (reply == InvalidDirectory <==> arg !in ["", "/", ".."] && !opens(Target(old(cur_path), arg)))
        && var after := Cwd(old(cur_path), args, arg != "" && opens(Target(old(cur_path), arg)));
           cur_path == (if reply == Okay && after.Some? then after.value else old(cur_path))
               && (reply == Okay <==> after.Some?)
    {
      var cmd_path := Argument(args);
      if cmd_path == "" { return SyntaxError; }
      if cmd_path == "/" {
        cur_path := cmd_path;
      } else if cmd_path == ".." {
        DirUpKeepsGood(cur_path);
        DirUpInPlace();
      } else {
        TargetIsGood(cur_path, cmd_path);
        var tmp_path := cmd_path;
        if cmd_path[0] != '/' {
          if AtRoot(cur_path) {
            tmp_path := cur_path + cmd_path;
          } else {
            tmp_path := cur_path + "/" + cmd_path;
          }
        }
        if '/' in tmp_path && LastSlash(tmp_path) == 0 {
          tmp_path := tmp_path + "/";
        }
        if tmp_path != "/" {
          if !opens(tmp_path) { return InvalidDirectory; }
        }
        cur_path := tmp_path;
      }
      return Okay;
    }

    /** cmd_CDUP_func. */
    method CDUP()
      requires Good(cur_path)
      modifies this
      ensures Good(cur_path) && cur_path == DirUp(old(cur_path))
      ensures |cur_path| < |old(cur_path)| || cur_path == old(cur_path) == "/"
    {
      DirUpKeepsGood(cur_path);
      DirUpInPlace();
    }
  }

  // ----- The invariant of the current path -----

  lemma {:induction false} DirUpKeepsGood(path: string)
    requires Good(path)
    ensures Good(DirUp(path))
    ensures path != "/" ==> |DirUp(path)| < |path|
  {
    if path != "/" && !AtRoot(path) {
      var head := path[..LastSlash(path)];
      assert head[0] == '/';
      if LastSlash(head) == 0 { LastSlashIs(head + "/", |head|); }
    }
  }

  /** In particular it is never "/", so that CWD never skips its check. */
  lemma {:induction false} TargetIsGood(cur: string, arg: string)
    requires Good(cur) && arg !in ["", "/", ".."]
    ensures Good(Target(cur, arg)) && Target(cur, arg) != "/"
  {
    var tmp := if arg[0] == '/' then arg else if AtRoot(cur) then cur + arg else cur + "/" + arg;
    assert |arg| == 1 ==> arg == [arg[0]];
    assert tmp[0] == '/' && |tmp| >= 2;
    if LastSlash(tmp) == 0 { LastSlashIs(tmp + "/", |tmp|); }
  }

  datatype Command = CWD(args: string, found: bool) | CDUP

  /** The current path after a session of accepted and refused commands. */
  function Session(cur: string, commands: seq<Command>): string
    requires Good(cur)
    ensures Good(Session(cur, commands))
    decreases |commands|
  {
    if commands == [] then cur
    else
      StepKeepsGood(cur, commands[0]);
      Session(Step(cur, commands[0]), commands[1..])
  }

  function Step(cur: string, command: Command): string
    requires Good(cur)
  {
    match command
    case CDUP => DirUp(cur)
    case CWD(args, found) =>
      var after := Cwd(cur, args, found);
      if after.Some? then after.value else cur
  }

  lemma {:induction false} CwdKeepsGood(cur: string, args: string, found: bool)
    requires Good(cur)
    ensures Cwd(cur, args, found).Some? ==> Good(Cwd(cur, args, found).value)
  {
    var arg := Argument(args);
    if arg == ".." {
      DirUpKeepsGood(cur);
    } else if arg !in ["", "/"] {
      TargetIsGood(cur, arg);
    }
    CwdIsOneOf(cur, args, found);
  }

  lemma {:induction false} CwdIsOneOf(cur: string, args: string, found: bool)
    requires '/' in cur
    ensures var arg := Argument(args);
      Cwd(cur, args, found) == None || Cwd(cur, args, found) == Some(
        if arg in ["", "/"] then "/" else if arg == ".." then DirUp(cur) else Target(cur, arg))
  {
  }

  /** Every command, accepted or refused, keeps the current path good. */
  lemma {:induction false} StepKeepsGood(cur: string, command: Command)
    requires Good(cur)
    ensures Good(Step(cur, command))
  {
    match command
    case CDUP => DirUpKeepsGood(cur);
    case CWD(args, found) => CwdKeepsGood(cur, args, found);
  }

  // ----- Going down and back up -----

  /** A name of one directory: CWD takes all of it, and takes it as relative. */
  predicate PlainName(name: string) {
    name != "" && name != ".." && forall c :: c in name ==> c != '/' && c !in "\r\n\t"
  }

  lemma {:induction false} PlainArgument(name: string)
    requires forall c :: c in name ==> c !in "\r\n\t"
    ensures Argument(name) == name
  {
    if name != "" { PlainArgument(name[1..]); }
  }

  /** No slash at the end, unless it is the first or the second of the path. */
  predicate Canonical(path: string) {
    AtRoot(path) && |path| > 1 ==> !('/' in path[1..|path| - 1])
  }

  lemma {:induction false} TargetIs(cur: string, name: string)
    requires Good(cur) && PlainName(name)
    ensures Target(cur, name) ==
            if cur == "/" then "/" + name + "/" else if AtRoot(cur) then cur + name else cur + "/" + name
  {
    assert name[0] in name;
    if cur == "/" {
      assert (cur + name)[1..] == name;
      LastSlashIs(cur + name, 0);
    } else if AtRoot(cur) {
      assert (cur + name)[|cur|..] == name;
      LastSlashIs(cur + name, |cur| - 1);
    } else {
      assert (cur + "/" + name)[|cur| + 1..] == name;
      LastSlashIs(cur + "/" + name, |cur|);
    }
  }

  /** Up again from a path without a slash at the end. */
  lemma {:induction false} UpFrom(head: string, name: string)
    requires PlainName(name) && head != "" && head[0] == '/'
    ensures DirUp(head + "/" + name) == WithSecondSlash(head)
  {
    var path := head + "/" + name;
    assert name[|name| - 1] in name;
    assert path[|path| - 1] == name[|name| - 1];
    assert path[|head| + 1..] == name && path[..|head|] == head;
    LastSlashIs(path, |head|);
  }

  lemma {:induction false} SecondSlash(head: string)
    requires head != "" && head[0] == '/'
    ensures WithSecondSlash(head) == if '/' in head[1..] then head else head + "/"
  {
    var k := LastSlash(head);
    assert k == 0 ==> '/' !in head[1..];
    if '/' !in head[1..] { LastSlashIs(head, 0); }
  }

  lemma {:induction false} DownAndUpFromSlash(cur: string, name: string)
    requires Good(cur) && PlainName(name) && AtRoot(cur) && cur != "/"
    ensures DirUp(cur + name) == cur <==> Canonical(cur)
  {
    var head := cur[..|cur| - 1];
    assert cur == head + "/" && cur + name == head + "/" + name;
    UpFrom(head, name);
    SecondSlash(head);
    assert head[1..] == cur[1..|cur| - 1];
  }

  /** One accepted CWD and one CDUP return, exactly if the path was canonical. */
  lemma {:induction false} DownAndUp(cur: string, name: string)
    requires Good(cur) && PlainName(name)
    ensures Canonical(Target(cur, name))
    ensures DirUp(Target(cur, name)) == cur <==> Canonical(cur)
  {
    assert name[|name| - 1] in name;
    TargetIs(cur, name);
    if cur == "/" {
      assert ("/" + name + "/")[1..|name| + 1] == name;
    } else if AtRoot(cur) {
      DownAndUpFromSlash(cur, name);
    } else {
      UpFrom(cur, name);
    }
  }

  /** And a client can reach one that is not: any path with a slash at its end beyond its second, from
      anywhere by one CWD. It does not come back to it by a CWD and a CDUP. */
  lemma {:induction false} SlashAtEndStays(cur: string, path: string, next: string)
    requires Good(cur) && PlainName(next) && forall c :: c in path ==> c !in "\r\n\t"
    requires |path| > 1 && path[0] == '/' && AtRoot(path) && '/' in path[1..|path| - 1]
    ensures Cwd(cur, path, true) == Some(path) && Good(path) && !Canonical(path)
    ensures Cwd(path, next, true) == Some(Target(path, next)) && DirUp(Target(path, next)) != path
  {
    PlainArgument(path);
    LastSlashIs(path, |path| - 1);
    PlainArgument(next);
    assert next[0] in next;
    CwdDown(cur, path);
    CwdDown(path, next);
    DownAndUp(path, next);
  }

  lemma {:induction false} CwdDown(cur: string, arg: string)
    requires '/' in cur && Argument(arg) == arg && arg !in ["", "/", ".."]
    ensures Cwd(cur, arg, true) == Some(Target(cur, arg))
  {
  }

  /** Such as "/ux0:/a/". */
  lemma {:induction false} SlashAtEndExample() returns (path: string)
    ensures Cwd("/", path, true) == Some(path) && Good(path) && !Canonical(path)
  {
    path := "/ux0:/a/";
    assert path[1..|path| - 1][4] == '/';
    SlashAtEndStays("/", path, "b");
  }

  function Downs(names: seq<string>): seq<Command> { seq(|names|, i requires 0 <= i < |names| => CWD(names[i], true)) }
  function Ups(n: nat): seq<Command> { seq(n, _ => CDUP) }

  lemma {:induction false} SessionAppends(cur: string, commands: seq<Command>, last: Command)
    requires Good(cur)
    ensures Session(cur, commands + [last]) == Step(Session(cur, commands), last)
    decreases |commands|
  {
    StepKeepsGood(cur, last);
    if commands == [] {
      assert commands + [last] == [last] && [last][1..] == [];
    } else {
      StepKeepsGood(cur, commands[0]);
      assert (commands + [last])[1..] == commands[1..] + [last];
      SessionAppends(Step(cur, commands[0]), commands[1..], last);
    }
  }

  lemma {:induction false} OneDown(cur: string, name: string)
    requires Good(cur) && PlainName(name)
    ensures Good(Target(cur, name)) && Step(cur, CWD(name, true)) == Target(cur, name)
  {
    PlainArgument(name);
    assert name[0] in name;
    TargetIsGood(cur, name);
  }

  lemma {:induction false} FirstDown(cur: string, names: seq<string>, next: string)
    requires Good(cur) && names != [] && Good(next) && Step(cur, CWD(names[0], true)) == next
    ensures Session(cur, Downs(names)) == Session(next, Downs(names[1..]))
  {
    assert Downs(names)[0] == CWD(names[0], true) && Downs(names)[1..] == Downs(names[1..]);
  }

  lemma {:induction false} OneUp(cur: string, n: nat)
    requires Good(cur)
    ensures Session(cur, Ups(n + 1)) == DirUp(Session(cur, Ups(n)))
  {
    assert Ups(n + 1) == Ups(n) + [CDUP];
    SessionAppends(cur, Ups(n), CDUP);
  }

  /** Any accepted CWDs to plain names and as many CDUPs return, exactly if the path was canonical. */
  lemma {:induction false} DownsAndUps(cur: string, names: seq<string>)
    requires Good(cur) && forall name :: name in names ==> PlainName(name)
    ensures Session(Session(cur, Downs(names)), Ups(|names|)) == cur <==> names == [] || Canonical(cur)
    decreases |names|
  {
    if names != [] {
      var name, rest := names[0], names[1..];
      assert name in names;
      OneDown(cur, name);
      var next := Target(cur, name);
      FirstDown(cur, names, next);
      DownAndUp(cur, name);
      DownsAndUps(next, rest);
      OneUp(Session(next, Downs(rest)), |rest|);
    }
  }

  // ----- The full path of a command's argument -----

  /** A path of the form "ux0:/foo". */
  predicate DeviceForm(path: string) {
    |path| >= 5 && path[3] == ':' && path[4] == '/'
  }

  /** gen_ftp_fullpath. */
  function FullPath(cur: string, path: string): string {
    if path != "" && path[0] == '/' then path
    else if DeviceForm(path) then "/" + path
    else cur + "/" + path
  }

  /** The components that a path addresses: empty ones do not count. */
  function Components(path: string): seq<string> {
    if path == "" then []
    else if path[0] == '/' then Components(path[1..])
    else
      var k := FirstSlash(path);
      [path[..k]] + Components(path[k..])
  }

  function FirstSlash(path: string): (k: nat)
    ensures k <= |path| && '/' !in path[..k]
    ensures k < |path| ==> path[k] == '/'
    ensures path != "" && path[0] != '/' ==> k > 0
  {
    if path == "" || path[0] == '/' then 0 else 1 + FirstSlash(path[1..])
  }

  lemma {:induction false} FirstSlashIs(path: string, k: nat)
    requires k <= |path| && '/' !in path[..k] && (k < |path| ==> path[k] == '/')
    ensures FirstSlash(path) == k
  {
    if k > 0 {
      assert path[..k][0] == path[0];
      assert path[1..][..k - 1] == path[..k][1..];
      FirstSlashIs(path[1..], k - 1);
    }
  }

  lemma {:induction false} FirstComponent(path: string, k: nat)
    requires 0 < k <= |path| && '/' !in path[..k] && (k < |path| ==> path[k] == '/')
    ensures Components(path) == [path[..k]] + Components(path[k..])
  {
    FirstSlashIs(path, k);
    assert path[..k][0] == path[0];
  }

  lemma {:induction false} SlashFirst(path: string)
    requires path != "" && path[0] == '/'
    ensures Components(path) == Components(path[1..])
  {
  }

  lemma {:induction false} JoinName(a: string, b: string, k: nat)
    requires 0 < k <= |a| && '/' !in a[..k] && (k < |a| ==> a[k] == '/')
    requires Components(a[k..] + "/" + b) == Components(a[k..]) + Components(b)
    ensures Components(a + "/" + b) == Components(a) + Components(b)
  {
    var path := a + "/" + b;
    assert path[..k] == a[..k] && path[k..] == a[k..] + "/" + b;
    FirstComponent(a, k);
    FirstComponent(path, k);
    Associates([a[..k]], Components(a[k..]), Components(b));
  }

  lemma {:induction false} Associates(x: seq<string>, y: seq<string>, z: seq<string>)
    ensures x + (y + z) == x + y + z
  {
  }

  lemma {:induction false} ComponentsJoin(a: string, b: string)
    ensures Components(a + "/" + b) == Components(a) + Components(b)
    decreases |a|
  {
    var path := a + "/" + b;
    if a == "" {
      assert path[1..] == b;
      SlashFirst(path);
    } else if a[0] == '/' {
      assert path[1..] == a[1..] + "/" + b;
      SlashFirst(path);
      SlashFirst(a);
      ComponentsJoin(a[1..], b);
    } else {
      var k := FirstSlash(a);
      ComponentsJoin(a[k..], b);
      JoinName(a, b, k);
    }
  }

  lemma {:induction false} OneComponent(name: string)
    requires name != "" && '/' !in name
    ensures Components(name) == [name]
  {
    assert name[0] in name;
    assert name[..|name|] == name;
    FirstSlashIs(name, |name|);
  }

  lemma {:induction false} ChildComponents(base: string, d: string)
    requires d != "" && '/' !in d
    ensures Components(base + "/" + d) == Components(base) + [d]
    ensures Components(base + "/") == Components(base)
  {
    OneComponent(d);
    ComponentsJoin(base, d);
    ComponentsJoin(base, "");
    assert base + "/" + "" == base + "/";
  }

  lemma {:induction false} RootComponents(d: string)
    requires d != "" && '/' !in d
    ensures Components("/" + d + "/") == [d] && Components("/") == []
  {
    ChildComponents("", d);
    ChildComponents("/" + d, d);
    assert "" + "/" + d == "/" + d && "" + "/" == "/";
  }

  /** A directory that was entered addresses the components of its parent and its own name. */
  lemma {:induction false} TargetComponents(cur: string, d: string)
    requires Good(cur) && PlainName(d)
    ensures Components(Target(cur, d)) == Components(cur) + [d]
  {
    TargetIs(cur, d);
    if cur == "/" {
      RootComponents(d);
    } else if AtRoot(cur) {
      var base := cur[..|cur| - 1];
      assert base + "/" + d == cur + d && base + "/" == cur;
      ChildComponents(base, d);
    } else {
      ChildComponents(cur, d);
    }
  }

  /** CWD to `d` and a command on `f` address what the command on "d/f" does, unless "d/f" as a whole
      has the device form, which then replaces the current path. */
  lemma {:induction false} EnterOrName(cur: string, d: string, f: string)
    requires Good(cur) && PlainName(d) && ':' !in d
    requires f != "" && f[0] != '/' && !DeviceForm(f)
    ensures Components(FullPath(Target(cur, d), f)) == Components(FullPath(cur, d + "/" + f))
            <==> !DeviceForm(d + "/" + f) || Components(cur) == []
  {
    TargetComponents(cur, d);
    SameComponents(cur, Target(cur, d), d, f);
  }

  lemma {:induction false} SameComponents(cur: string, entered: string, d: string, f: string)
    requires d != "" && '/' !in d && f != "" && f[0] != '/' && !DeviceForm(f)
    requires Components(entered) == Components(cur) + [d]
    ensures Components(FullPath(entered, f)) == Components(FullPath(cur, d + "/" + f))
            <==> !DeviceForm(d + "/" + f) || Components(cur) == []
  {
    assert d[0] in d;
    FullPathComponents(entered, f);
    FullPathComponents(cur, d + "/" + f);
    OneComponent(d);
    ComponentsJoin(d, f);
    LongerUnless(Components(cur), d, Components(f));
  }

  lemma {:induction false} FullPathComponents(cur: string, f: string)
    requires f != "" && f[0] != '/'
    ensures Components(FullPath(cur, f)) == if DeviceForm(f) then Components(f) else Components(cur) + Components(f)
  {
    ComponentsJoin(cur, f);
    assert ("/" + f)[1..] == f;
  }

  /** An absolute argument, or one of the device form, addresses its own components, wherever the
      client is: for a command as for CWD. */
  lemma {:induction false} AbsoluteIsItself(cur: string, path: string)
    ensures (path != "" && path[0] == '/') || DeviceForm(path) ==> Components(FullPath(cur, path)) == Components(path)
    ensures path != "" && path[0] == '/' ==> Components(Target(cur, path)) == Components(path)
  {
    assert ("/" + path)[1..] == path;
    SecondSlashComponents(path);
  }

  /** Any other argument addresses what lies below where the client is. */
  lemma {:induction false} RelativeIsBelow(cur: string, path: string)
    requires path != "" && path[0] != '/'
    ensures !DeviceForm(path) ==> Components(FullPath(cur, path)) == Components(cur) + Components(path)
    ensures Components(Target(cur, path)) == Components(cur) + Components(path)
  {
    FullPathComponents(cur, path);
    if AtRoot(cur) {
      BelowRoot(cur[..|cur| - 1], cur, path);
      SecondSlashComponents(cur + path);
    } else {
      ComponentsJoin(cur, path);
      SecondSlashComponents(cur + "/" + path);
    }
  }

  lemma {:induction false} BelowRoot(base: string, cur: string, path: string)
    requires cur == base + "/"
    ensures Components(cur + path) == Components(cur) + Components(path)
  {
    assert base + "/" + path == cur + path && base + "/" + "" == cur;
    ComponentsJoin(base, path);
    ComponentsJoin(base, "");
  }

  /** The device form has a device of three characters. */
  lemma {:induction false} DeviceFormIs(path: string)
    ensures DeviceForm(path) <==> exists device, rest :: |device| == 3 && path == device + ":/" + rest
  {
    if DeviceForm(path) { assert path == path[..3] + ":/" + path[5..]; }
  }

  /** What CWD does: it is refused exactly without an argument, or when a directory other than "/" and ".." is
      not there; otherwise it goes to the root, up, or to what its argument addresses. */
  lemma {:induction false} CwdGoes(cur: string, args: string, found: bool)
    requires Good(cur)
    ensures var arg := Argument(args);
      && (Cwd(cur, args, found).Some? <==> arg != "" && (found || arg == "/" || arg == ".."))
      && (Cwd(cur, args, found).Some? ==>
            Components(Cwd(cur, args, found).value) ==
            if arg == ".." then Components(DirUp(cur)) else if arg[0] == '/' then Components(arg)
            else Components(cur) + Components(arg))
  {
    var arg := Argument(args);
    CwdIsOneOf(cur, args, found);
    if arg !in ["", "/", ".."] {
      TargetIsGood(cur, arg);
      if arg[0] == '/' { AbsoluteIsItself(cur, arg); } else { RelativeIsBelow(cur, arg); }
    }
  }

  lemma {:induction false} SecondSlashComponents(path: string)
    ensures Components(WithSecondSlash(path)) == Components(path)
  {
    ComponentsJoin(path, "");
    assert path + "/" + "" == path + "/";
  }

  /** dir_up: to the root from a path with a slash at its end, and otherwise to the parent. */
  lemma {:induction false} UpComponents(path: string)
    requires Good(path)
    ensures AtRoot(path) ==> DirUp(path) == "/" && Components(DirUp(path)) == []
    ensures !AtRoot(path) ==> exists last :: last != "" && Components(path) == Components(DirUp(path)) + [last]
  {
    var k := LastSlash(path);
    if !AtRoot(path) {
      var head, last := path[..k], path[k + 1..];
      assert path == head + "/" + last;
      OneComponent(last);
      ComponentsJoin(head, last);
      SecondSlashComponents(head);
    } else {
      assert "/"[1..] == "";
    }
  }

  lemma {:induction false} LongerUnless(above: seq<string>, d: string, below: seq<string>)
    ensures above + [d] + below == above + ([d] + below)
    ensures above + [d] + below == [d] + below <==> above == []
  {
    assert |above + [d] + below| == |above| + |[d] + below|;
  }

  /** The exception is real: from "/ux0:/" the directory "a" and the name "x:/y". */
  lemma {:induction false} EnterIsNotName()
    ensures var cur, d, f := "/ux0:/", "a", "x:/y";
      Good(cur) && PlainName(d) && ':' !in d && !DeviceForm(f)
      && Components(FullPath(Target(cur, d), f)) != Components(FullPath(cur, d + "/" + f))
  {
    var cur, d, f := "/ux0:/", "a", "x:/y";
    LastSlashIs(cur, 5);
    assert d + "/" + f == "a/x:/y";
    DeviceIsComponent();
    EnterOrName(cur, d, f);
  }

  lemma {:induction false} DeviceIsComponent()
    ensures Components("/ux0:/") != []
  {
    assert "/ux0:/"[1..] == "ux0:/";
  }
}
