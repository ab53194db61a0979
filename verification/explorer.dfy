/**
 * The desktop's file explorer: a constant folder tree and a stack of path segments
 * (`currentPath`) that folder clicks push onto and the back button pops from.
 */
module Explorer {
  import opened Wrappers
  import Strings

  /** A tree entry: the root, a folder, or a file with its media category. */
  datatype Node = Root(children: map<string, Node>) | Folder(children: map<string, Node>) | File(category: string)

  const MyFiles: string := "My Files"

  /** The constant `fileSystem` tree. */
  const FileSystem: map<string, Node> := map[
    MyFiles := Root(map[
      "audio" := Folder(map[
        "smooth-jazz-start.mp3" := File("audio"),
        "smooth-jazz-main.mp3" := File("audio"),
        "sad-jazz.mp3" := File("audio")]),
      "images" := Folder(map[
        "imms-character.png" := File("image"),
        "imms-both-gifts.png" := File("image"),
        "imms-flowers.png" := File("image"),
        "picture-frame.png" := File("image"),
        "plushies.png" := File("image"),
        "room-background.png" := File("image"),
        "celebration.png" := File("image"),
        "gregory-grasshopper.png" := File("image"),
        "gregory-watch.png" := File("image")]),
      "videos" := Folder(map[
        "sad-bridge.mp4" := File("video"),
        "gregory-meme.mp4" := File("video")])])]

  /** A resolved entry that has children (the root or a folder). */
  predicate IsDirectory(n: Option<Node>) {
    n.Some? && !n.value.File?
  }

  /** `fileSystem[currentPath[0]]`: undefined for an empty path or an unknown first segment. */
  function StartNode(path: seq<string>): Option<Node> {
    if |path| == 0 then None
    else if path[0] in FileSystem then Some(FileSystem[path[0]])
    else None
  }

  /**
   * One iteration of the traversal loop: a directory moves to its child (undefined if
   * there is none); anything without children, undefined or a file, stays where it is.
   */
  function Descend(cur: Option<Node>, seg: string): Option<Node> {
    if IsDirectory(cur) then
      (if seg in cur.value.children then Some(cur.value.children[seg]) else None)
    else cur
  }

  /**
   * The entry the traversal in `renderFileExplorer` reaches for `path`. Only a path
   * that starts at the root of the tree reaches anything.
   */
  function Resolve(path: seq<string>): (r: Option<Node>)
    ensures r.Some? ==> |path| > 0 && path[0] == MyFiles
    decreases |path|
  {
    if |path| <= 1 then StartNode(path)
    else Descend(Resolve(path[..|path| - 1]), path[|path| - 1])
  }

  /** The path with its first segment, the root, dropped (`slice(1)`). */
  function Tail(path: seq<string>): seq<string> {
    if |path| == 0 then [] else path[1..]
  }

  /**
   * The `filePath` `openFile` builds: the folders below the root joined by `/`, then
   * the file name, which the path always ends with.
   */
  function FilePath(path: seq<string>, filename: string): (r: string)
    ensures |filename| <= |r| && r[|r| - |filename|..] == filename
  {
    var folderPath := Strings.Join(Tail(path), "/");
    if folderPath != "" then folderPath + "/" + filename else filename
  }

  const MusicIcon: string := "\U{1F3B5}"
  const VideoIcon: string := "\U{1F3AC}"
  const ImageIcon: string := "\U{1F5BC}\U{FE0F}"
  const DocumentIcon: string := "\U{1F4C4}"
  const FolderIcon: string := "\U{1F4C1}"

  /** `getFileIcon`: one icon per media category, a plain document icon for anything else. */
  function GetFileIcon(filename: string, category: string): (icon: string)
    ensures icon == DocumentIcon <==> category !in {"audio", "video", "image"}
    ensures category == "audio" ==> icon == MusicIcon
    ensures category == "video" ==> icon == VideoIcon
    ensures category == "image" ==> icon == ImageIcon
  {
    if category == "audio" then MusicIcon
    else if category == "video" then VideoIcon
    else if category == "image" then ImageIcon
    else DocumentIcon
  }

  /**
   * The icon an item gets in the listing: the folder icon for a folder, else the file
   * icon; no file gets the folder icon.
   */
  function ItemIcon(name: string, item: Node): (icon: string)
    ensures icon == FolderIcon <==> item.Folder?
  {
    if item.Folder? then FolderIcon
    else GetFileIcon(name, if item.File? then item.category else "")
  }

  /** The folder a directory path names has a directory as its parent. */
  lemma ParentOfDirectory(path: seq<string>)
    requires |path| > 1 && IsDirectory(Resolve(path))
    ensures IsDirectory(Resolve(path[..|path| - 1]))
  {
  }

  /** Appending a child's name resolves to that child. */
  lemma ResolveChild(path: seq<string>, name: string)
    requires |path| > 0 && IsDirectory(Resolve(path)) && name in Resolve(path).value.children
    ensures Resolve(path + [name]) == Some(Resolve(path).value.children[name])
  {
    assert (path + [name])[..|path|] == path;
  }

  /** A file's path is the joined folder segments below the root followed by the file name. */
  lemma FilePathIsJoin(path: seq<string>, filename: string)
    requires Tail(path) != [""]
    ensures FilePath(path, filename) == Strings.Join(Tail(path) + [filename], "/")
  {
    Strings.JoinEmpty(Tail(path), "/");
    if Tail(path) != [] {
      Strings.JoinSnoc(Tail(path), filename, "/");
    } else {
      assert Tail(path) + [filename] == [filename];
    }
  }

  /** Files opened at the root have their bare name; inside a folder they are prefixed with it. */
  lemma FilePathExamples()
    ensures FilePath([MyFiles], "notes.txt") == "notes.txt"
    ensures FilePath([MyFiles, "images"], "plushies.png") == "images/plushies.png"
  {
    FilePathIsJoin([MyFiles, "images"], "plushies.png");
    assert Tail([MyFiles, "images"]) + ["plushies.png"] == ["images", "plushies.png"];
  }

  /** The explorer window's navigation state. */
  class Explorer {
    var currentPath: seq<string>

    /** Before any window opens the path is empty; afterwards it always names a directory. */
    ghost predicate Valid()
      reads this
    {
      currentPath == [] || IsDirectory(Resolve(currentPath))
    }

    constructor ()
      ensures Valid() && currentPath == []
    {
      currentPath := [];
    }

    /** `openMyFiles` */
    method OpenMyFiles()
      modifies this
      ensures Valid() && currentPath == [MyFiles]
    {
      currentPath := [MyFiles];
    }

    /** `openMusic` */
    method OpenMusic()
      modifies this
      ensures Valid() && currentPath == [MyFiles, "audio"]
    {
      currentPath := [MyFiles, "audio"];
    }

    /** `openPhotos` */
    method OpenPhotos()
      modifies this
      ensures Valid() && currentPath == [MyFiles, "images"]
    {
      currentPath := [MyFiles, "images"];
    }

    /** `openVideos` */
    method OpenVideos()
      modifies this
      ensures Valid() && currentPath == [MyFiles, "videos"]
    {
      currentPath := [MyFiles, "videos"];
    }

    /**
     * The back button's `disabled` flag as `renderFileExplorer` sets it: the button is
     * disabled exactly at the root and before any window has opened.
     */
    function BackDisabled(): (disabled: bool)
      reads this
      ensures Valid() ==> (disabled <==> currentPath == [] || currentPath == [MyFiles])
    {
      if |currentPath| == 1 then
        assert Valid() ==> currentPath == [currentPath[0]] && currentPath[0] == MyFiles;
        true
      else |currentPath| < 1
    }

    /** The traversal loop of `renderFileExplorer`: the directory whose children are listed. */
    method CurrentDirectory() returns (dir: Option<Node>)
      ensures dir == Resolve(currentPath)
    {
      dir := StartNode(currentPath);
      if |currentPath| == 0 {
        return;
      }
      assert dir == Resolve(currentPath[..1]);
      var i := 1;
      while i < |currentPath|
        invariant 1 <= i <= |currentPath|
        invariant dir == Resolve(currentPath[..i])
      {
        assert currentPath[..i + 1][..i] == currentPath[..i];
        if IsDirectory(dir) {
          dir := if currentPath[i] in dir.value.children then Some(dir.value.children[currentPath[i]]) else None;
        }
        i := i + 1;
      }
      assert currentPath[..|currentPath|] == currentPath;
    }

    /** `navigateBack`: pops a segment only while more than the root remains. */
    method NavigateBack()
      requires Valid()
      modifies this
      ensures Valid()
      ensures currentPath == if |old(currentPath)| > 1 then old(currentPath)[..|old(currentPath)| - 1] else old(currentPath)
      ensures currentPath != old(currentPath) <==> !old(BackDisabled())
      ensures |old(currentPath)| >= 1 ==> |currentPath| >= 1
    {
      if |currentPath| > 1 {
        ParentOfDirectory(currentPath);
        currentPath := currentPath[..|currentPath| - 1];
      }
    }

    /**
     * A click on a listed item: a folder is pushed onto the path; a file is opened at
     * the path `openFile` constructs, and the path stays as it is.
     */
    method ClickItem(name: string) returns (openedAt: Option<string>)
      requires Valid() && currentPath != [] && name in Resolve(currentPath).value.children
      modifies this
      ensures Valid()
      ensures Resolve(old(currentPath)).value.children[name].Folder? ==>
        currentPath == old(currentPath) + [name] && openedAt == None
      ensures !Resolve(old(currentPath)).value.children[name].Folder? ==>
        currentPath == old(currentPath) && openedAt == Some(FilePath(currentPath, name))
    {
      var item := Resolve(currentPath).value.children[name];
      if item.Folder? {
        ResolveChild(currentPath, name);
        currentPath := currentPath + [name];
        openedAt := None;
      } else {
        openedAt := Some(FilePath(currentPath, name));
      }
    }
  }
}
