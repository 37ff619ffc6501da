module SeedAnswers {
  /**
   * The answer of row `i` of the base list (ai_brain.py:297-328). It is a
   * function of the row rather than a list so that the long texts are only
   * unfolded where a row is asked for.
   */
  function BaseAnswer(i: nat): string
    requires i < 26
  {
    if i == 0 then "Hey! I can help with Roblox Lua scripting, GUI, and executors!"
    else if i == 1 then "Hello! Ready to learn Roblox scripting?"
    else if i == 2 then "I'm doing great! How can I help with Roblox?"
    else if i == 3 then "You're welcome! Happy to help!"
    else if i == 4 then "No problem! Ask me anything about Roblox!"
    else if i == 5 then "Kumusta! Ano'ng matutulungan ko sa Roblox?"
    else if i == 6 then "Ayos lang ako! May tanong ka ba?"
    else if i == 7 then "Walang anuman!"
    else if i == 8 then "Lua is a lightweight scripting language. Roblox uses Lua 5.1 for game scripting. It's simple yet powerful!"
    else if i == 9 then "In Lua: local myVar = 10 for numbers, local name = 'John' for strings. Always use 'local' for better performance!"
    else if i == 10 then "Tables are Lua's main data structure. Example: local myTable = {1, 2, 3} or local player = {name = 'John', age = 25}. Access with myTable[1] or player.name"
    else if i == 11 then "function greet(name)\n  print('Hello ' .. name)\nend\n\ngreet('Player')"
    else if i == 12 then "for i = 1, 10 do\n  print(i)\nend\n\nwhile condition do\n  -- code\nend\n\nfor key, value in pairs(table) do\n  print(key, value)\nend"
    else if i == 13 then "LocalScript runs on the client (player's computer). Use for UI, camera controls, and client-side actions. Put in StarterPlayerScripts or GUI objects."
    else if i == 14 then "Script = Server-side (controls game logic)\nLocalScript = Client-side (handles UI/input)\nModuleScript = Reusable code\n\nUse Script for game mechanics, LocalScript for player stuff!"
    else if i == 15 then "local part = Instance.new('Part')\npart.Size = Vector3.new(4, 1, 2)\npart.Position = Vector3.new(0, 10, 0)\npart.BrickColor = BrickColor.new('Bright red')\npart.Parent = workspace"
    else if i == 16 then "local player = game.Players.LocalPlayer\nlocal mouse = player:GetMouse()\n\nmouse.Button1Down:Connect(function()\n  print('Clicked!')\nend)"
    else if i == 17 then "RemoteEvent allows client-server communication:\n\nServer to Client: event:FireClient(player, data)\nClient to Server: event:FireServer(data)\n\nListen: event.OnServerEvent:Connect(function(player, data) end)"
    else if i == 18 then "local gui = Instance.new('ScreenGui')\ngui.Parent = game.Players.LocalPlayer.PlayerGui\n\nlocal frame = Instance.new('Frame')\nframe.Size = UDim2.new(0, 200, 0, 100)\nframe.Position = UDim2.new(0.5, -100, 0.5, -50)\nframe.Parent = gui"
    else if i == 19 then "local button = Instance.new('TextButton')\nbutton.Size = UDim2.new(0, 150, 0, 50)\nbutton.Text = 'Click Me!'\nbutton.Parent = screenGui\n\nbutton.MouseButton1Click:Connect(function()\n  print('Clicked!')\nend)"
    else if i == 20 then "UDim2 is for GUI positioning:\n\nUDim2.new(scaleX, offsetX, scaleY, offsetY)\n\nScale = 0 to 1 (percentage)\nOffset = pixels\n\nExamples:\nUDim2.new(0.5, 0, 0.5, 0) -- Center\nUDim2.new(1, 0, 1, 0) -- Full screen"
    else if i == 21 then "An executor runs Lua scripts in Roblox games. Popular ones: Synapse X, Script-Ware, KRNL. They inject code into the game client."
    else if i == 22 then "loadstring() compiles code from string:\n\nlocal code = 'print(\"Hello\")'\nloadstring(code)()\n\nUseful for executors to run dynamic code!"
    else if i == 23 then "getgenv() returns the global environment for executors. It persists across script runs:\n\ngetgenv().myVar = 'value'\n\nThe variable stays even after scripts end."
    else if i == 24 then "Para gumawa ng script:\n1. Buksan Roblox Studio\n2. Explorer -> ServerScriptService\n3. Insert -> Script\n4. I-type ang code\n5. Test!"
    else "Ang variable ay nag-store ng data:\n\nlocal pangalan = 'Juan'\nlocal edad = 25\n\nGamitin ang 'local' para mas mabilis!"
  }

}
