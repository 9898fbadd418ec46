/** Device-mapper names for logical volumes, and the mount check that relies on them. */
module DeviceMapper {
  import opened Wrappers

  const DEV: string := "/dev/"
  const MAPPER: string := "/dev/mapper/"

  function ReplaceAll(s: string, c: char, replacement: string): string {
    if s == "" then "" else (if s[0] == c then replacement else [s[0]]) + ReplaceAll(s[1..], c, replacement)
  }

  function MapperName(path: string): string {
    ReplaceAll(ReplaceAll(path, '-', "--"), '/', "-")
  }

  function ToMapperPath(devPath: string): string {
    if !(DEV <= devPath) then "" else MAPPER + MapperName(devPath[|DEV|..])
  }

  /** Reading a mapper name back: two hyphens are one, a single one a slash. */
  function Decode(name: string): string {
    if name == "" then ""
    else if name[0] != '-' then [name[0]] + Decode(name[1..])
    else if |name| >= 2 && name[1] == '-' then "-" + Decode(name[2..])
    else "/" + Decode(name[1..])
  }

  /** After a slash comes neither another one nor a hyphen: path components are not empty
      and do not start with a hyphen. */
  predicate Plain(path: string) {
    forall i, j :: 0 <= i && j == i + 1 < |path| && path[i] == '/' ==> path[j] != '/' && path[j] != '-'
  }

  function Encode(path: string): string {
    if path == "" then ""
    else (if path[0] == '-' then "--" else if path[0] == '/' then "-" else [path[0]]) + Encode(path[1..])
  }

  lemma {:induction false} ReplaceAllAppends(a: string, b: string, c: char, replacement: string)
    ensures ReplaceAll(a + b, c, replacement) == ReplaceAll(a, c, replacement) + ReplaceAll(b, c, replacement)
  {
    if a == "" {
      assert a + b == b;
    } else {
      ReplaceAllAppends(a[1..], b, c, replacement);
      assert (a + b)[1..] == a[1..] + b && (a + b)[0] == a[0];
      var first := if a[0] == c then replacement else [a[0]];
      assert ReplaceAll(a + b, c, replacement) == first + ReplaceAll(a[1..] + b, c, replacement);
      Associative(first, ReplaceAll(a[1..], c, replacement), ReplaceAll(b, c, replacement));
    }
  }

  lemma Associative(a: string, b: string, c: string)
    ensures a + (b + c) == (a + b) + c
  {
  }

  /** The two replacements in a row amount to one encoding character by character. */
  lemma {:induction false} TwoReplacementsEncode(path: string)
    ensures MapperName(path) == Encode(path)
  {
    if path != "" {
      TwoReplacementsEncode(path[1..]);
      var first := if path[0] == '-' then "--" else [path[0]];
      ReplaceAllAppends(first, ReplaceAll(path[1..], '-', "--"), '/', "-");
      assert "--"[1..] == "-" && "-"[1..] == "";
      assert ReplaceAll("", '/', "-") == "" && ReplaceAll("-", '/', "-") == "-";
      assert ReplaceAll("--", '/', "-") == "--";
      assert [path[0]][1..] == "";
    }
  }

  lemma EncodedHead(path: string)
    ensures Encode(path) != "" && Encode(path)[0] == '-' <==> path != "" && (path[0] == '-' || path[0] == '/')
  {
  }

  lemma PlainTail(path: string)
    requires path != ""
    ensures Plain(path) <==> Plain(path[1..]) && (path[0] == '/' && |path| > 1 ==> path[1] != '/' && path[1] != '-')
  {
    var tail := path[1..];
    if Plain(path) {
      forall i, j | 0 <= i && j == i + 1 < |tail| && tail[i] == '/' ensures tail[j] != '/' && tail[j] != '-' {
        assert path[i + 1] == tail[i] && path[j + 1] == tail[j];
      }
      if path[0] == '/' && |path| > 1 {
        assert path[0] == '/' && 1 == 0 + 1;
      }
    }
    if Plain(tail) && (path[0] == '/' && |path| > 1 ==> path[1] != '/' && path[1] != '-') {
      forall i, j | 0 <= i && j == i + 1 < |path| && path[i] == '/' ensures path[j] != '/' && path[j] != '-' {
        if i > 0 {
          assert tail[i - 1] == path[i] && tail[j - 1] == path[j];
        }
      }
    }
  }

  /** Decoding gives the path back exactly when it is plain. */
  lemma {:induction false} DecodeInverts(path: string)
    ensures Decode(MapperName(path)) == path <==> Plain(path)
  {
    TwoReplacementsEncode(path);
    EncodeInverts(path);
  }

  lemma {:induction false} EncodeInverts(path: string)
    ensures Decode(Encode(path)) == path <==> Plain(path)
  {
    if path != "" {
      var tail := path[1..];
      EncodeInverts(tail);
      PlainTail(path);
      EncodedHead(tail);
      assert path == [path[0]] + tail;
      if path[0] == '-' {
        assert Encode(path)[2..] == Encode(tail);
      } else {
        assert Encode(path)[1..] == Encode(tail);
      }
      if path[0] == '/' && tail != "" && (tail[0] == '-' || tail[0] == '/') {
        assert Decode(Encode(path))[0] == '-';
      }
    }
  }

  lemma SlashEncodes()
    ensures Encode("/") == "-"
  {
    assert "/"[1..] == "";
  }

  lemma VolumeName(group: string, volume: string)
    requires '/' !in group && '/' !in volume
    ensures MapperName(group + ("/" + volume)) == ReplaceAll(group, '-', "--") + ("-" + ReplaceAll(volume, '-', "--"))
  {
    TwoReplacementsEncode(group + ("/" + volume));
    EncodeAppends(group, "/" + volume);
    EncodeAppends("/", volume);
    SlashEncodes();
    DoublingEncodes(group);
    DoublingEncodes(volume);
  }

  lemma UnderDev(path: string)
    ensures ToMapperPath(DEV + path) == MAPPER + MapperName(path)
  {
    assert (DEV + path)[|DEV|..] == path;
  }

  /** A logical volume's path: its two names with doubled hyphens, under /dev/mapper/ and
      joined by a single one; what is not under /dev has no mapper path. */
  lemma VolumePath(group: string, volume: string, path: string)
    requires '/' !in group && '/' !in volume
    ensures ToMapperPath("/dev/" + (group + ("/" + volume)))
         == "/dev/mapper/" + (ReplaceAll(group, '-', "--") + ("-" + ReplaceAll(volume, '-', "--")))
    ensures !("/dev/" <= path) ==> ToMapperPath(path) == ""
  {
    VolumeName(group, volume);
    UnderDev(group + ("/" + volume));
  }

  lemma {:induction false} EncodeAppends(a: string, b: string)
    ensures Encode(a + b) == Encode(a) + Encode(b)
  {
    if a == "" {
      assert a + b == b;
    } else {
      EncodeAppends(a[1..], b);
      assert (a + b)[1..] == a[1..] + b && (a + b)[0] == a[0];
    }
  }

  lemma {:induction false} DoublingEncodes(name: string)
    requires '/' !in name
    ensures Encode(name) == ReplaceAll(name, '-', "--")
  {
    if name != "" {
      DoublingEncodes(name[1..]);
    }
  }

  /** Two different devices on plain paths never share a mapper path. */
  lemma MapperPathsDiffer(a: string, b: string)
    requires DEV <= a && DEV <= b && Plain(a[|DEV|..]) && Plain(b[|DEV|..]) && a != b
    ensures ToMapperPath(a) != ToMapperPath(b)
  {
    DecodeInverts(a[|DEV|..]);
    DecodeInverts(b[|DEV|..]);
    assert a == DEV + a[|DEV|..] && b == DEV + b[|DEV|..];
    assert ToMapperPath(a)[|MAPPER|..] == MapperName(a[|DEV|..]);
    assert ToMapperPath(b)[|MAPPER|..] == MapperName(b[|DEV|..]);
  }

  lemma {:induction false} EncodeRestores(name: string)
    requires '/' !in name
    ensures Encode(Decode(name)) == name && Plain(Decode(name))
  {
    if name != "" {
      var first, rest := if name[0] != '-' then [name[0]] else if |name| >= 2 && name[1] == '-' then "-" else "/",
                         if name[0] == '-' && |name| >= 2 && name[1] == '-' then name[2..] else name[1..];
      EncodeRestores(rest);
      assert Decode(name) == first + Decode(rest);
      assert Decode(name)[1..] == Decode(rest);
      PlainTail(Decode(name));
      EncodedHead(Decode(rest));
    }
  }

  lemma {:induction false} EncodedHasNoSlash(path: string)
    ensures '/' !in Encode(path)
  {
    if path != "" {
      EncodedHasNoSlash(path[1..]);
    }
  }

  /** Any other path shares its mapper path with a plain one. */
  lemma OtherPathsCollide(path: string)
    requires !Plain(path)
    ensures exists plain :: Plain(plain) && plain != path && ToMapperPath(DEV + plain) == ToMapperPath(DEV + path)
  {
    var plain := Decode(MapperName(path));
    DecodeInverts(path);
    TwoReplacementsEncode(path);
    EncodedHasNoSlash(path);
    EncodeRestores(MapperName(path));
    TwoReplacementsEncode(plain);
    assert (DEV + plain)[|DEV|..] == plain && (DEV + path)[|DEV|..] == path;
  }

  // ----------------------------------------------------------------- the mount check

  datatype Mount = Mount(path: string, device: string, options: seq<string>)

  function MountAt(mounts: seq<Mount>, target: string): Option<Mount> {
    if mounts == [] then None
    else if mounts[0].path == target then Some(mounts[0])
    else MountAt(mounts[1..], target)
  }

  /** The target is a mount of this device, read-only if that was asked for. */
  predicate MountedRight(mounts: seq<Mount>, devPath: string, target: string, options: seq<string>) {
    var m := MountAt(mounts, target);
    && m.Some?
    && (m.value.device == devPath || m.value.device == ToMapperPath(devPath))
    && ("ro" in options ==> "ro" in m.value.options)
  }

  method CheckMount(mounts: seq<Mount>, devPath: string, target: string, options: seq<string>) returns (ok: bool)
    ensures ok <==> MountedRight(mounts, devPath, target, options)
  {
    for i := 0 to |mounts|
      invariant MountAt(mounts, target) == MountAt(mounts[i..], target)
    {
      assert mounts[i..][0] == mounts[i] && mounts[i..][1..] == mounts[i + 1..];
      var m := mounts[i];
      if m.path == target {
        var mapperDevicePath := ToMapperPath(devPath);
        if m.device != devPath && m.device != mapperDevicePath {
          return false;
        }
        if "ro" in options && "ro" !in m.options {
          return false;
        }
        return true;
      }
    }
    return false;
  }

  ghost predicate FirstAt(mounts: seq<Mount>, target: string, i: nat) {
    i < |mounts| && mounts[i].path == target && forall j :: 0 <= j < i ==> mounts[j].path != target
  }

  lemma {:induction false} MountAtIsFirst(mounts: seq<Mount>, target: string, m: Mount)
    ensures MountAt(mounts, target) == Some(m) <==> exists i: nat :: FirstAt(mounts, target, i) && mounts[i] == m
  {
    if mounts != [] {
      var tail := mounts[1..];
      MountAtIsFirst(tail, target, m);
      if mounts[0].path == target {
        assert FirstAt(mounts, target, 0);
      } else {
        forall i: nat ensures FirstAt(tail, target, i) <==> FirstAt(mounts, target, i + 1) {
          assert i < |tail| ==> tail[i] == mounts[i + 1] && forall j :: 0 <= j < i ==> tail[j] == mounts[j + 1];
          assert i < |tail| ==> forall j :: 0 < j < i + 1 ==> mounts[j] == tail[j - 1];
        }
        assert forall i: nat :: FirstAt(mounts, target, i) ==> i > 0 && FirstAt(tail, target, i - 1);
        assert forall i: nat :: i < |tail| ==> tail[i] == mounts[i + 1];
      }
    }
  }

  /** The check looks at the first mount at the target and nothing else: it must be the
      device, under either name, and read-only if that was asked for. */
  lemma MountedRightExactly(mounts: seq<Mount>, devPath: string, target: string, options: seq<string>)
    ensures MountedRight(mounts, devPath, target, options) <==>
              exists i: nat :: FirstAt(mounts, target, i)
                && mounts[i].device in {devPath, ToMapperPath(devPath)}
                && ("ro" in options ==> "ro" in mounts[i].options)
  {
    forall m { MountAtIsFirst(mounts, target, m); }
    if MountedRight(mounts, devPath, target, options) {
      var m := MountAt(mounts, target).value;
      var i: nat :| FirstAt(mounts, target, i) && mounts[i] == m;
    }
    if i: nat :| FirstAt(mounts, target, i) && mounts[i].device in {devPath, ToMapperPath(devPath)}
                 && ("ro" in options ==> "ro" in mounts[i].options) {
      assert MountAt(mounts, target) == Some(mounts[i]);
    }
  }

  /** What is mounted under the mapper name of one device is not taken for another. */
  lemma MountCheckTellsDevicesApart(mounts: seq<Mount>, mounted: string, devPath: string, target: string, options: seq<string>)
    requires DEV <= mounted && DEV <= devPath && Plain(mounted[|DEV|..]) && Plain(devPath[|DEV|..])
    requires MountAt(mounts, target).Some? && MountAt(mounts, target).value.device == ToMapperPath(mounted)
    requires MountedRight(mounts, devPath, target, options)
    ensures devPath == mounted || devPath == ToMapperPath(mounted)
  {
    if devPath != mounted {
      MapperPathsDiffer(mounted, devPath);
    }
  }
}
