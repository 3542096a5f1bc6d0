/**
 * The catch-all route `home` of `generate_app` in gena/app_generator.py: a
 * top-level file name with an extension the single-page application ships
 * as a file (.json, .ico, .png) is sent from the template folder; every
 * other path, the root included, renders the application's index.html.
 */
module App {
  import opened Text

  /** What `home` answers with. */
  datatype Page =
    | SendFile(name: string)   // send_from_directory(template_folder, name)
    | Index                    // render_template("index.html")

  /** The extensions served as files. */
  predicate ServedExtension(path: string) {
    EndsWith(path, ".json") || EndsWith(path, ".ico") || EndsWith(path, ".png")
  }

  /** home(path); the route `/` passes the empty path. */
  function Home(path: string): (r: Page)
    ensures r.SendFile? ==> r.name == path
  {
    if Find(path, '/') == -1 && Find(path, '.') != -1 && ServedExtension(path) then SendFile(path)
    else Index
  }

  /** A file is sent exactly for a top-level dotted path with a served extension. */
  lemma HomeSendsFile(path: string)
    ensures Home(path).SendFile? <==> '/' !in path && '.' in path && ServedExtension(path)
  {
  }

  /** A path inside a directory renders the index. */
  lemma NestedPathRendersIndex(path: string)
    requires '/' in path
    ensures Home(path) == Index
  {
  }

  /** A path without a dot renders the index; so does the root. */
  lemma UndottedPathRendersIndex(path: string)
    requires '.' !in path
    ensures Home(path) == Index
  {
  }

  lemma RootRendersIndex()
    ensures Home("") == Index
  {
  }

  /** Other top-level files, such as the application's scripts, render the index. */
  lemma ScriptRendersIndex()
    ensures Home("main.js") == Index
  {
    assert "main.js"[7 - 5..] == "in.js";
  }

  /** A top-level icon is sent as a file. */
  lemma IconIsSent()
    ensures Home("favicon.ico") == SendFile("favicon.ico")
  {
    var p := "favicon.ico";
    assert '/' !in p by {
      assert forall i | 0 <= i < |p| :: p[i] != '/';
    }
    assert p[7] == '.';
    assert p[|p| - 4..] == ".ico";
    HomeSendsFile(p);
  }
}
